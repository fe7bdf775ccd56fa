/**
 * What insert_transactions_into_database and handle_date compute, as functions of the
 * table handed to them: which column holds the date, which columns play the five roles,
 * and which ledger records the row loop writes before it finishes or fails.
 */
module Ingestion {
  import opened Wrappers
  import opened Seqs
  import opened Constants
  import opened Timestamps
  import opened Frame
  import opened Db

  /** The column upload_csv adds to every staged table, all False; the flag role reads it. */
  const UploadFlagColumn: string := "Excluded"

  /** The column save_transactions sets to True for the selected rows (lower case). */
  const SelectionColumn: string := "excluded"

  /** The columns the row loop reads besides the date. */
  datatype Role = Amount | Category | Currency | Type | Flag

  function HeaderNames(r: Role): seq<string>
  {
    match r
    case Amount => AmountHeaderNames
    case Category => CategoryHeaderNames
    case Currency => CurrencyHeaderNames
    case Type => TypeHeaderNames
    case Flag => Flags
  }

  /**
   * The role the elif chain gives one header: amount, category, currency, type and flag
   * are tested in that order.
   */
  function RoleOf(h: string): (r: Option<Role>)
    ensures r.Some? ==> h in HeaderNames(r.value)
  {
    if h in AmountHeaderNames then Some(Amount)
    else if h in CategoryHeaderNames then Some(Category)
    else if h in CurrencyHeaderNames then Some(Currency)
    else if h in TypeHeaderNames then Some(Type)
    else if h in Flags then Some(Flag)
    else None
  }

  /** The five lists are disjoint, so a header listed for a role gets exactly that role, whatever the test order. */
  lemma RoleOfListed(h: string, q: Role)
    requires h in HeaderNames(q)
    ensures RoleOf(h) == Some(q)
  {
  }

  /** One pass of the header loop: the header's role, if it has one, is rebound to it. */
  function Bind(roleOf: string -> Option<Role>, roles: map<Role, string>, h: string): map<Role, string>
  {
    match roleOf(h)
    case None => roles
    case Some(r) => roles[r := h]
  }

  /**
   * The role variables after a header loop that tests each header with roleOf and has no
   * break; a role no header has stays unbound. The lemmas below hold for any such test.
   */
  function ResolveBy(roleOf: string -> Option<Role>, columns: seq<string>): (m: map<Role, string>)
    ensures forall r :: r in m ==> m[r] in columns
  {
    if columns == [] then map[]
    else Bind(roleOf, ResolveBy(roleOf, columns[..|columns| - 1]), columns[|columns| - 1])
  }

  /** The role variables after the header loop of insert_transactions_into_database. */
  function ResolveRoles(columns: seq<string>): (m: map<Role, string>)
    ensures forall r :: r in m ==> m[r] in columns && RoleOf(m[r]) == Some(r)
  {
    ResolvedFromColumns(RoleOf, columns);
    ResolveBy(RoleOf, columns)
  }

  /** Every bound role holds a header of that role. */
  lemma {:induction false} ResolvedFromColumns(roleOf: string -> Option<Role>, columns: seq<string>)
    ensures forall r :: r in ResolveBy(roleOf, columns) ==> roleOf(ResolveBy(roleOf, columns)[r]) == Some(r)
  {
    if columns != [] {
      ResolvedFromColumns(roleOf, columns[..|columns| - 1]);
    }
  }

  /** A role is bound exactly when some header has it (there is no default). */
  lemma {:induction false} ResolvedIffSomeMatch(roleOf: string -> Option<Role>, columns: seq<string>, r: Role)
    ensures r in ResolveBy(roleOf, columns) <==> exists i :: 0 <= i < |columns| && roleOf(columns[i]) == Some(r)
  {
    if columns != [] {
      var n := |columns| - 1;
      ResolvedIffSomeMatch(roleOf, columns[..n], r);
      assert forall i :: 0 <= i < n ==> columns[i] == columns[..n][i];
    }
  }

  /** No header after position i has role r. */
  predicate LaterWithout(roleOf: string -> Option<Role>, columns: seq<string>, i: nat, r: Role)
  {
    forall j :: i < j < |columns| ==> roleOf(columns[j]) != Some(r)
  }

  /** A bound role holds the LAST header in column order that has it: the loop has no break. */
  lemma {:induction false} ResolvedIsLastMatch(roleOf: string -> Option<Role>, columns: seq<string>, r: Role)
    requires r in ResolveBy(roleOf, columns)
    ensures exists i :: 0 <= i < |columns| && columns[i] == ResolveBy(roleOf, columns)[r]
                        && LaterWithout(roleOf, columns, i, r)
  {
    var n := |columns| - 1;
    var init := columns[..n];
    var m := ResolveBy(roleOf, columns);
    if roleOf(columns[n]) == Some(r) {
      assert columns[n] == m[r];
      assert LaterWithout(roleOf, columns, n, r);
    } else {
      ResolvedIsLastMatch(roleOf, init, r);
      var i :| 0 <= i < |init| && init[i] == ResolveBy(roleOf, init)[r] && LaterWithout(roleOf, init, i, r);
      assert columns[i] == m[r];
      forall j | i < j < |columns|
        ensures roleOf(columns[j]) != Some(r)
      {
        if j < n {
          assert columns[j] == init[j];
        }
      }
      assert LaterWithout(roleOf, columns, i, r);
    }
  }

  /** The column handle_date picks: the first header, in column order, that is a date header. */
  function FirstDateHeader(columns: seq<string>): (r: Option<string>)
    ensures r.None? <==> forall j :: 0 <= j < |columns| ==> columns[j] !in DateHeaderNames
    ensures r.Some? ==>
              exists i :: 0 <= i < |columns| && columns[i] == r.value && r.value in DateHeaderNames
                          && forall j :: 0 <= j < i ==> columns[j] !in DateHeaderNames
  {
    if columns == [] then None
    else if columns[0] in DateHeaderNames then Some(columns[0])
    else
      var r := FirstDateHeader(columns[1..]);
      assert forall j :: 1 <= j < |columns| ==> columns[j] == columns[1..][j - 1];
      r
  }

  /** A header that is not a date header appended after the others does not change the choice. */
  lemma {:induction false} FirstDateHeaderAppend(columns: seq<string>, h: string)
    requires h !in DateHeaderNames
    ensures FirstDateHeader(columns + [h]) == FirstDateHeader(columns)
  {
    if columns != [] {
      assert (columns + [h])[1..] == columns[1..] + [h];
      FirstDateHeaderAppend(columns[1..], h);
    }
  }

  /** What pd.to_datetime(errors="coerce") puts in a date cell. */
  function ToDateCell(p: Option<Timestamp>): Cell
  {
    match p
    case Some(t) => Stamp(t)
    case None => NaT
  }

  /** Every row holds a timestamp or NaT under the date column. */
  predicate DateNormalized(rows: seq<Row>, dateColumn: string)
  {
    forall row: Row :: row in rows ==> dateColumn in row && (row[dateColumn].Stamp? || row[dateColumn].NaT?)
  }

  /** df[d] = pd.to_datetime(df[d], errors="coerce"), with the parse given cell by cell. */
  function ParseDateColumn(t: Table, dateColumn: string, parse: Cell -> Option<Timestamp>): (r: Table)
    requires WellFormed(t) && dateColumn in t.columns
    ensures WellFormed(r) && r.columns == t.columns && |r.rows| == |t.rows|
    ensures DateNormalized(r.rows, dateColumn)
    ensures forall i :: 0 <= i < |r.rows| ==> r.rows[i][dateColumn] == ToDateCell(parse(t.rows[i][dateColumn]))
    ensures forall i, c :: 0 <= i < |r.rows| && c in t.rows[i] && c != dateColumn ==> r.rows[i][c] == t.rows[i][c]
  {
    Table(t.columns, seq(|t.rows|, i requires 0 <= i < |t.rows| =>
                           t.rows[i][dateColumn := ToDateCell(parse(t.rows[i][dateColumn]))]))
  }

  /** The Python exceptions insert_transactions_into_database can raise. */
  datatype Failure =
    | NoDateColumn            // ValueError("No date column found") from handle_date
    | UnboundRole(role: Role) // NameError: no header had this role
    | NotATimestamp           // strftime on a date cell that is neither NaT nor a timestamp

  /** `row[type] in EXCLUDED_TYPES`. */
  predicate IsExcludedType(c: Cell)
  {
    c.Text? && c.s in ExcludedTypes
  }

  /** The row has the date column and every bound role column. */
  predicate Readable(row: Row, dateColumn: string, roles: map<Role, string>)
  {
    dateColumn in row && forall r :: r in roles ==> roles[r] in row
  }

  predicate AllBound(roles: map<Role, string>)
  {
    Type in roles && Category in roles && Currency in roles && Amount in roles && Flag in roles
  }

  /** The first role the row loop reads while it is unbound: the type test comes first, then the keyword arguments. */
  function FirstUnbound(roles: map<Role, string>): (r: Role)
    requires !AllBound(roles)
    ensures r !in roles
  {
    if Type !in roles then Type
    else if Category !in roles then Category
    else if Currency !in roles then Currency
    else if Amount !in roles then Amount
    else Flag
  }

  /** The insert_transaction arguments for one row. */
  function MakeRecord(row: Row, dateColumn: string, roles: map<Role, string>,
                      source: Option<string>, bookingId: nat): (rec: TransactionRecord)
    requires Readable(row, dateColumn, roles) && AllBound(roles) && row[dateColumn].Stamp?
    ensures |rec.date| == 19 && rec.recipient == row[roles[Category]]
    ensures rec.sourceCsv == source && rec.bookingId == bookingId
  {
    TransactionRecord(Strftime(row[dateColumn].t), row[roles[Category]], row[roles[Currency]],
                      row[roles[Amount]], source, bookingId, row[roles[Flag]])
  }

  /** The date text of a record reads back as the row's timestamp, to the second. */
  lemma MakeRecordDate(row: Row, dateColumn: string, roles: map<Role, string>, source: Option<string>, bookingId: nat)
    requires Readable(row, dateColumn, roles) && AllBound(roles) && row[dateColumn].Stamp?
    ensures var t := row[dateColumn].t;
            ReadBack(MakeRecord(row, dateColumn, roles, source, bookingId).date)
              == Fields(t.year, t.month, t.day, t.hour, t.minute, t.second)
  {
    ReadBackStrftime(row[dateColumn].t);
  }

  datatype Step = Skip | Emit(record: TransactionRecord) | Stop(failure: Failure)

  /** One pass of the row loop, reading cells in the order Python evaluates them. */
  function RowStep(row: Row, dateColumn: string, roles: map<Role, string>,
                   source: Option<string>, bookingId: nat): (r: Step)
    requires Readable(row, dateColumn, roles)
    ensures r.Skip? <==> IsNa(row[dateColumn]) || (Type in roles && IsExcludedType(row[roles[Type]]))
    ensures r.Emit? ==> AllBound(roles) && row[dateColumn].Stamp? && r.record == MakeRecord(row, dateColumn, roles, source, bookingId)
    ensures r.Stop? ==> (r.failure == NotATimestamp <==> Type in roles && !row[dateColumn].Stamp?)
    ensures r.Stop? && r.failure.UnboundRole? ==> !AllBound(roles) && r.failure.role == FirstUnbound(roles)
  {
    var val := row[dateColumn];
    if IsNa(val) then Skip
    else if Type !in roles then Stop(UnboundRole(Type))
    else if IsExcludedType(row[roles[Type]]) then Skip
    else if !val.Stamp? then Stop(NotATimestamp)
    else if !AllBound(roles) then Stop(UnboundRole(FirstUnbound(roles)))
    else Emit(MakeRecord(row, dateColumn, roles, source, bookingId))
  }

  /** What the row loop inserts, and the exception that ends it early, if any. */
  datatype IngestOutcome = IngestOutcome(records: seq<TransactionRecord>, failure: Option<Failure>)

  function RunRows(rows: seq<Row>, dateColumn: string, roles: map<Role, string>,
                   source: Option<string>, bookingId: nat): (o: IngestOutcome)
    requires forall row :: row in rows ==> Readable(row, dateColumn, roles)
    ensures |o.records| <= |rows|
    ensures forall k :: 0 <= k < |o.records| ==> o.records[k].bookingId == bookingId && o.records[k].sourceCsv == source
  {
    if rows == [] then IngestOutcome([], None)
    else
      match RowStep(rows[0], dateColumn, roles, source, bookingId)
      case Skip => RunRows(rows[1..], dateColumn, roles, source, bookingId)
      case Stop(f) => IngestOutcome([], Some(f))
      case Emit(rec) =>
        var rest := RunRows(rows[1..], dateColumn, roles, source, bookingId);
        IngestOutcome([rec] + rest.records, rest.failure)
  }

  /** RunRows on a suffix of the rows takes one step at the suffix's first row. */
  lemma RunRowsFrom(rows: seq<Row>, i: nat, dateColumn: string, roles: map<Role, string>,
                    source: Option<string>, bookingId: nat)
    requires i < |rows|
    requires forall row :: row in rows ==> Readable(row, dateColumn, roles)
    ensures var step := RowStep(rows[i], dateColumn, roles, source, bookingId);
            var here := RunRows(rows[i..], dateColumn, roles, source, bookingId);
            var rest := RunRows(rows[i + 1..], dateColumn, roles, source, bookingId);
            && (step.Skip? ==> here == rest)
            && (step.Stop? ==> here == IngestOutcome([], Some(step.failure)))
            && (step.Emit? ==> here == IngestOutcome([step.record] + rest.records, rest.failure))
  {
    assert rows[i..][0] == rows[i] && rows[i..][1..] == rows[i + 1..];
  }

  /** insert_transactions_into_database(df), with the booking id and source the bookkeeper holds. */
  function Ingest(df: Table, parse: Cell -> Option<Timestamp>, source: Option<string>, bookingId: nat): (o: IngestOutcome)
    requires WellFormed(df)
    ensures |o.records| <= |df.rows|
    ensures forall k :: 0 <= k < |o.records| ==> o.records[k].bookingId == bookingId && o.records[k].sourceCsv == source
  {
    match FirstDateHeader(df.columns)
    case None => IngestOutcome([], Some(NoDateColumn))
    case Some(d) =>
      var parsed := ParseDateColumn(df, d, parse);
      var roles := ResolveRoles(parsed.columns);
      RunRows(parsed.rows, d, roles, source, bookingId)
  }

  // ----- The reference description of the row loop -----

  /** A row the loop books: its date parsed and its type is not excluded. */
  predicate Kept(row: Row, dateColumn: string, typeColumn: string)
    requires dateColumn in row && typeColumn in row
  {
    !IsNa(row[dateColumn]) && !IsExcludedType(row[typeColumn])
  }

  /** The kept rows, in row order. */
  function KeptRows(rows: seq<Row>, dateColumn: string, typeColumn: string): (r: seq<Row>)
    requires forall row :: row in rows ==> dateColumn in row && typeColumn in row
    ensures forall row :: row in r <==> row in rows && Kept(row, dateColumn, typeColumn)
    ensures |r| <= |rows|
  {
    if rows == [] then []
    else
      var rest := KeptRows(rows[1..], dateColumn, typeColumn);
      if Kept(rows[0], dateColumn, typeColumn) then [rows[0]] + rest else rest
  }

  /** One record per row, in order. */
  function Records(rows: seq<Row>, dateColumn: string, roles: map<Role, string>,
                   source: Option<string>, bookingId: nat): (r: seq<TransactionRecord>)
    requires AllBound(roles)
    requires forall row: Row :: row in rows ==> Readable(row, dateColumn, roles) && row[dateColumn].Stamp?
    ensures |r| == |rows|
  {
    if rows == [] then []
    else
      assert rows[0] in rows && forall row :: row in rows[1..] ==> row in rows;
      [MakeRecord(rows[0], dateColumn, roles, source, bookingId)] + Records(rows[1..], dateColumn, roles, source, bookingId)
  }

  /** Record k is built from row k. */
  lemma {:induction false} RecordAt(rows: seq<Row>, dateColumn: string, roles: map<Role, string>,
                                    source: Option<string>, bookingId: nat, k: nat)
    requires AllBound(roles)
    requires forall row: Row :: row in rows ==> Readable(row, dateColumn, roles) && row[dateColumn].Stamp?
    requires k < |rows|
    ensures rows[k] in rows
    ensures Records(rows, dateColumn, roles, source, bookingId)[k] == MakeRecord(rows[k], dateColumn, roles, source, bookingId)
  {
    var tail := rows[1..];
    assert rows[0] in rows && forall row :: row in tail ==> row in rows;
    var head := MakeRecord(rows[0], dateColumn, roles, source, bookingId);
    assert Records(rows, dateColumn, roles, source, bookingId) == [head] + Records(tail, dateColumn, roles, source, bookingId);
    if k > 0 {
      RecordAt(tail, dateColumn, roles, source, bookingId, k - 1);
      assert tail[k - 1] == rows[k];
    }
  }

  /** With every role bound, a parsed row is either booked or skipped, as Kept says. */
  lemma KeptRowStep(row: Row, dateColumn: string, roles: map<Role, string>, source: Option<string>, bookingId: nat)
    requires AllBound(roles) && Readable(row, dateColumn, roles)
    requires row[dateColumn].Stamp? || row[dateColumn].NaT?
    ensures Kept(row, dateColumn, roles[Type]) ==>
              RowStep(row, dateColumn, roles, source, bookingId) == Emit(MakeRecord(row, dateColumn, roles, source, bookingId))
    ensures !Kept(row, dateColumn, roles[Type]) ==> RowStep(row, dateColumn, roles, source, bookingId) == Skip
  {
  }

  /**
   * With every role bound, the loop never fails and inserts exactly one record per kept row,
   * in row order; every other row is skipped.
   */
  lemma {:induction false} RunRowsAllBound(rows: seq<Row>, dateColumn: string, roles: map<Role, string>,
                                           source: Option<string>, bookingId: nat)
    requires AllBound(roles) && DateNormalized(rows, dateColumn)
    requires forall row :: row in rows ==> Readable(row, dateColumn, roles)
    ensures RunRows(rows, dateColumn, roles, source, bookingId)
            == IngestOutcome(Records(KeptRows(rows, dateColumn, roles[Type]), dateColumn, roles, source, bookingId), None)
  {
    if rows != [] {
      var tail := rows[1..];
      assert forall row :: row in tail ==> row in rows;
      RunRowsAllBound(tail, dateColumn, roles, source, bookingId);
      assert rows[0] in rows;
      KeptRowStep(rows[0], dateColumn, roles, source, bookingId);
      var rest := KeptRows(tail, dateColumn, roles[Type]);
      if Kept(rows[0], dateColumn, roles[Type]) {
        var kept := KeptRows(rows, dateColumn, roles[Type]);
        assert kept == [rows[0]] + rest;
        assert kept[1..] == rest;
      }
    }
  }

  /** The row reaches the first read of an unbound role: its date parsed and, if the type is bound, it is not excluded. */
  predicate Reaches(row: Row, dateColumn: string, roles: map<Role, string>)
    requires Readable(row, dateColumn, roles)
  {
    !IsNa(row[dateColumn]) && (Type in roles ==> !IsExcludedType(row[roles[Type]]))
  }

  /**
   * With some role unbound, nothing is ever inserted: the loop fails, with the NameError of
   * the first unbound role it reads, exactly when some row gets that far.
   */
  lemma {:induction false} RunRowsUnbound(rows: seq<Row>, dateColumn: string, roles: map<Role, string>,
                                          source: Option<string>, bookingId: nat)
    requires !AllBound(roles) && DateNormalized(rows, dateColumn)
    requires forall row :: row in rows ==> Readable(row, dateColumn, roles)
    ensures var o := RunRows(rows, dateColumn, roles, source, bookingId);
            && o.records == []
            && (o.failure.Some? <==> exists row :: row in rows && Reaches(row, dateColumn, roles))
            && (o.failure.Some? ==> o.failure.value == UnboundRole(FirstUnbound(roles)))
  {
    if rows != [] {
      assert forall row :: row in rows[1..] ==> row in rows;
      RunRowsUnbound(rows[1..], dateColumn, roles, source, bookingId);
      if !Reaches(rows[0], dateColumn, roles) {
        assert forall row :: row in rows ==> row == rows[0] || row in rows[1..];
      }
    }
  }

  /**
   * The ingestion either fails before inserting anything, or inserts one record per kept
   * row of the date-parsed table; the strftime failure never happens.
   */
  lemma IngestFailsWithoutInserting(df: Table, parse: Cell -> Option<Timestamp>, source: Option<string>, bookingId: nat)
    requires WellFormed(df)
    ensures var o := Ingest(df, parse, source, bookingId);
            && (o.failure.Some? ==> o.records == [])
            && o.failure != Some(NotATimestamp)
            && (FirstDateHeader(df.columns).None? <==> o.failure == Some(NoDateColumn))
  {
    match FirstDateHeader(df.columns)
    case None =>
    case Some(d) =>
      var parsed := ParseDateColumn(df, d, parse);
      var roles := ResolveRoles(parsed.columns);
      if AllBound(roles) {
        RunRowsAllBound(parsed.rows, d, roles, source, bookingId);
      } else {
        RunRowsUnbound(parsed.rows, d, roles, source, bookingId);
      }
  }

  /** The records of the kept rows of the date-parsed table, for a table whose roles all resolve. */
  function KeptRecords(df: Table, dateColumn: string, parse: Cell -> Option<Timestamp>,
                       source: Option<string>, bookingId: nat): seq<TransactionRecord>
    requires WellFormed(df) && FirstDateHeader(df.columns) == Some(dateColumn)
    requires AllBound(ResolveRoles(df.columns))
  {
    var parsed := ParseDateColumn(df, dateColumn, parse);
    var roles := ResolveRoles(df.columns);
    assert forall row :: row in parsed.rows ==> Readable(row, dateColumn, roles);
    Records(KeptRows(parsed.rows, dateColumn, roles[Type]), dateColumn, roles, source, bookingId)
  }

  /**
   * Each record of a resolved table is the insert_transaction call for the kept row at the
   * same position: its date printed "%Y-%m-%d %H:%M:%S", the recipient from the category
   * column, the currency, amount and flag cells, the staged source and the active booking.
   */
  lemma KeptRecordAt(df: Table, dateColumn: string, parse: Cell -> Option<Timestamp>,
                     source: Option<string>, bookingId: nat, k: nat)
    requires WellFormed(df) && FirstDateHeader(df.columns) == Some(dateColumn)
    requires AllBound(ResolveRoles(df.columns))
    requires k < |KeptRecords(df, dateColumn, parse, source, bookingId)|
    ensures var parsed := ParseDateColumn(df, dateColumn, parse);
            var roles := ResolveRoles(df.columns);
            var row := KeptRows(parsed.rows, dateColumn, roles[Type])[k];
            var rec := KeptRecords(df, dateColumn, parse, source, bookingId)[k];
            && row in parsed.rows && Kept(row, dateColumn, roles[Type]) && row[dateColumn].Stamp?
            && rec.date == Strftime(row[dateColumn].t)
            && rec.recipient == row[roles[Category]]
            && rec.currency == row[roles[Currency]]
            && rec.amount == row[roles[Amount]]
            && rec.sourceCsv == source && rec.bookingId == bookingId
            && rec.excluded == row[roles[Flag]]
  {
    var parsed := ParseDateColumn(df, dateColumn, parse);
    var roles := ResolveRoles(df.columns);
    assert forall row :: row in parsed.rows ==> Readable(row, dateColumn, roles);
    var kept := KeptRows(parsed.rows, dateColumn, roles[Type]);
    RecordAt(kept, dateColumn, roles, source, bookingId, k);
  }

  /**
   * pd.to_datetime(errors="coerce") turns None and NaN into NaT, so a row whose date cell is
   * missing is skipped by the row loop and is never among the kept rows.
   */
  lemma MissingDateSkipped(df: Table, dateColumn: string, parse: Cell -> Option<Timestamp>, i: int,
                           roles: map<Role, string>, source: Option<string>, bookingId: nat)
    requires parse(Missing).None?
    requires WellFormed(df) && dateColumn in df.columns && 0 <= i < |df.rows| && df.rows[i][dateColumn] == Missing
    requires Type in roles && forall r :: r in roles ==> roles[r] in df.columns
    ensures var parsed := ParseDateColumn(df, dateColumn, parse);
            && Readable(parsed.rows[i], dateColumn, roles)
            && parsed.rows[i][dateColumn] == NaT
            && RowStep(parsed.rows[i], dateColumn, roles, source, bookingId) == Skip
            && parsed.rows[i] !in KeptRows(parsed.rows, dateColumn, roles[Type])
  {
    var parsed := ParseDateColumn(df, dateColumn, parse);
    assert parsed.rows[i].Keys == ColumnSet(df.columns);
    assert forall row :: row in parsed.rows ==> dateColumn in row && roles[Type] in row;
  }

  /** When the date column and all five roles resolve, the records are those of the kept rows. */
  lemma IngestResolved(df: Table, parse: Cell -> Option<Timestamp>, source: Option<string>, bookingId: nat,
                       dateColumn: string)
    requires WellFormed(df) && FirstDateHeader(df.columns) == Some(dateColumn)
    requires AllBound(ResolveRoles(df.columns))
    ensures Ingest(df, parse, source, bookingId) == IngestOutcome(KeptRecords(df, dateColumn, parse, source, bookingId), None)
  {
    var parsed := ParseDateColumn(df, dateColumn, parse);
    RunRowsAllBound(parsed.rows, dateColumn, ResolveRoles(df.columns), source, bookingId);
  }

  // ----- The selection written by save_transactions -----

  /** The staged table as upload_csv stores it: an "Excluded" column, False in every row. */
  function WithUploadFlag(t: Table): (r: Table)
    requires WellFormed(t)
    ensures WellFormed(r) && |r.rows| == |t.rows| && UploadFlagColumn in r.columns
    ensures forall i :: 0 <= i < |r.rows| ==> r.rows[i].Keys == t.rows[i].Keys + {UploadFlagColumn}
    ensures forall i :: 0 <= i < |r.rows| ==> r.rows[i][UploadFlagColumn] == Bool(false)
    ensures forall i, c :: 0 <= i < |r.rows| && c in t.rows[i] && c != UploadFlagColumn ==> r.rows[i][c] == t.rows[i][c]
  {
    AssignColumn(t, UploadFlagColumn, Bool(false))
  }

  predicate ValidSelection(t: Table, selected: seq<int>)
  {
    forall k :: 0 <= k < |selected| ==> 0 <= selected[k] < |t.rows|
  }

  /** Only a table with rows has a selection. */
  lemma SelectionNeedsRows(t: Table, selected: seq<int>)
    requires ValidSelection(t, selected)
    ensures selected != [] ==> t.rows != []
  {
    if selected != [] {
      assert 0 <= selected[0] < |t.rows|;
    }
  }

  /** df.at[i, "excluded"] = True for each selected row i in turn. */
  function MarkExcluded(t: Table, selected: seq<int>): (r: Table)
    requires WellFormed(t) && ValidSelection(t, selected)
    ensures WellFormed(r) && |r.rows| == |t.rows|
    ensures r.columns == if selected == [] then t.columns else WithColumnName(t.columns, SelectionColumn)
    ensures forall i :: 0 <= i < |r.rows| && i in selected ==> r.rows[i][SelectionColumn] == Bool(true)
    ensures forall i :: 0 <= i < |r.rows| && i !in selected && selected != [] ==>
              r.rows[i][SelectionColumn] == if SelectionColumn in t.columns then t.rows[i][SelectionColumn] else Missing
    ensures forall i, c :: 0 <= i < |r.rows| && c in t.rows[i] && c != SelectionColumn ==> r.rows[i][c] == t.rows[i][c]
    ensures selected == [] ==> r == t
  {
    if selected == [] then t
    else
      var n := |selected| - 1;
      assert forall i :: i in selected <==> i in selected[..n] || i == selected[n];
      SetCell(MarkExcluded(t, selected[..n]), selected[n], SelectionColumn, Bool(true))
  }

  /** Two rows that hold the same cells under the date column and every bound role column. */
  predicate AgreeOn(r1: Row, r2: Row, dateColumn: string, roles: map<Role, string>)
  {
    && Readable(r1, dateColumn, roles) && Readable(r2, dateColumn, roles)
    && r1[dateColumn] == r2[dateColumn]
    && forall r :: r in roles ==> r1[roles[r]] == r2[roles[r]]
  }

  /** The row loop only looks at the date and role columns. */
  lemma {:induction false} RunRowsLooksAtRoles(rows1: seq<Row>, rows2: seq<Row>, dateColumn: string,
                                               roles: map<Role, string>, source: Option<string>, bookingId: nat)
    requires |rows1| == |rows2|
    requires forall i :: 0 <= i < |rows1| ==> AgreeOn(rows1[i], rows2[i], dateColumn, roles)
    ensures (forall row :: row in rows1 ==> Readable(row, dateColumn, roles))
    ensures (forall row :: row in rows2 ==> Readable(row, dateColumn, roles))
    ensures RunRows(rows1, dateColumn, roles, source, bookingId) == RunRows(rows2, dateColumn, roles, source, bookingId)
  {
    if rows1 != [] {
      RunRowsLooksAtRoles(rows1[1..], rows2[1..], dateColumn, roles, source, bookingId);
      assert RowStep(rows1[0], dateColumn, roles, source, bookingId) == RowStep(rows2[0], dateColumn, roles, source, bookingId);
    }
  }

  /** The "excluded" header is neither a date header nor a role header. */
  lemma SelectionColumnIsInert()
    ensures SelectionColumn !in DateHeaderNames && RoleOf(SelectionColumn).None?
  {
    assert SelectionColumn[0] == 'e';
  }

  /** Appending "excluded" to the headers changes neither the date column nor the roles. */
  lemma ColumnChoiceIgnoresSelection(columns: seq<string>)
    ensures FirstDateHeader(columns + [SelectionColumn]) == FirstDateHeader(columns)
    ensures ResolveRoles(columns + [SelectionColumn]) == ResolveRoles(columns)
  {
    SelectionColumnIsInert();
    FirstDateHeaderAppend(columns, SelectionColumn);
    assert (columns + [SelectionColumn])[..|columns|] == columns;
  }

  /** Marking adds at most the "excluded" header, so the date column and the roles stay as they were. */
  lemma MarkExcludedKeepsColumnChoice(t: Table, selected: seq<int>)
    requires WellFormed(t) && ValidSelection(t, selected)
    ensures FirstDateHeader(MarkExcluded(t, selected).columns) == FirstDateHeader(t.columns)
    ensures ResolveRoles(MarkExcluded(t, selected).columns) == ResolveRoles(t.columns)
  {
    var cols := MarkExcluded(t, selected).columns;
    assert cols == t.columns || cols == t.columns + [SelectionColumn];
    ColumnChoiceIgnoresSelection(t.columns);
  }

  /** After the date parse, the marked and the unmarked table agree on every column the row loop reads. */
  lemma MarkedRowsAgree(t: Table, selected: seq<int>, parse: Cell -> Option<Timestamp>, dateColumn: string)
    requires WellFormed(t) && ValidSelection(t, selected) && FirstDateHeader(t.columns) == Some(dateColumn)
    ensures dateColumn in t.columns && dateColumn in MarkExcluded(t, selected).columns
    ensures var pm := ParseDateColumn(MarkExcluded(t, selected), dateColumn, parse);
            var pt := ParseDateColumn(t, dateColumn, parse);
            && |pm.rows| == |pt.rows|
            && forall i :: 0 <= i < |pm.rows| ==> AgreeOn(pm.rows[i], pt.rows[i], dateColumn, ResolveRoles(t.columns))
  {
    var m := MarkExcluded(t, selected);
    MarkExcludedKeepsColumnChoice(t, selected);
    SelectionColumnIsInert();
    ResolvedFromColumns(RoleOf, t.columns);
    var pm := ParseDateColumn(m, dateColumn, parse);
    var pt := ParseDateColumn(t, dateColumn, parse);
    var roles := ResolveRoles(t.columns);
    assert dateColumn != SelectionColumn;
    assert forall r :: r in roles ==> roles[r] in t.columns && roles[r] != SelectionColumn;
    forall i | 0 <= i < |pm.rows|
      ensures AgreeOn(pm.rows[i], pt.rows[i], dateColumn, roles)
    {
      assert t.rows[i].Keys == ColumnSet(t.columns);
      assert m.rows[i][dateColumn] == t.rows[i][dateColumn];
      forall r | r in roles
        ensures roles[r] in pm.rows[i] && roles[r] in pt.rows[i] && pm.rows[i][roles[r]] == pt.rows[i][roles[r]]
      {
        var c := roles[r];
        assert c in t.rows[i];
        if c != dateColumn {
          assert pm.rows[i][c] == m.rows[i][c] == t.rows[i][c] == pt.rows[i][c];
        }
      }
    }
  }

  /**
   * The rows picked in the table are marked in "excluded", while the flag role reads
   * "Excluded": the selection never changes what is inserted or whether it fails.
   */
  lemma SelectionDoesNotReachLedger(t: Table, selected: seq<int>, parse: Cell -> Option<Timestamp>,
                                    source: Option<string>, bookingId: nat)
    requires WellFormed(t) && ValidSelection(t, selected)
    ensures Ingest(MarkExcluded(t, selected), parse, source, bookingId) == Ingest(t, parse, source, bookingId)
  {
    var m := MarkExcluded(t, selected);
    MarkExcludedKeepsColumnChoice(t, selected);
    match FirstDateHeader(t.columns)
    case None =>
    case Some(d) =>
      MarkedRowsAgree(t, selected, parse, d);
      var pm := ParseDateColumn(m, d, parse);
      var pt := ParseDateColumn(t, d, parse);
      RunRowsLooksAtRoles(pm.rows, pt.rows, d, ResolveRoles(t.columns), source, bookingId);
  }
}
