/**
 * The Bookkeeper page of pages/bookkeeper.py without its Dash wiring: the session
 * state (active booking, staged table, source file name), the three callbacks that
 * move it, and the ingestion routine that writes the saved table to the ledger.
 */
module Bookkeeper {
  import opened Wrappers
  import opened Seqs
  import opened Constants
  import opened Timestamps
  import opened Frame
  import opened Db
  import opened Ingestion

  /** What save_transactions hands back: PreventUpdate, an exception, or the saved count and booking. */
  datatype SaveResult = Prevented | Failed(failure: Failure) | Saved(count: nat, bookingId: nat)

  /** `not n_clicks` is false: the button was pressed at least once. */
  predicate Clicked(nClicks: Option<int>)
  {
    nClicks.Some? && nClicks.value != 0
  }

  /** `if selected_rows:` treats None and [] alike. */
  function SelectedOf(selectedRows: Option<seq<int>>): seq<int>
  {
    match selectedRows
    case None => []
    case Some(s) => s
  }

  /** A table as upload_csv stages it: its "Excluded" column is False in every row. */
  predicate Staged(t: Table)
  {
    && WellFormed(t) && UploadFlagColumn in t.columns
    && forall i :: 0 <= i < |t.rows| ==> t.rows[i][UploadFlagColumn] == Bool(false)
  }

  /** Every ledger row belongs to a created booking or to the one about to be created. */
  predicate Accounted(transactions: seq<TransactionRecord>, bookings: seq<nat>, nextBookingId: nat)
  {
    forall k :: 0 <= k < |transactions| ==>
      transactions[k].bookingId in bookings || transactions[k].bookingId == nextBookingId
  }

  /** Saving rows under the pending booking and then creating it keeps every row accounted for. */
  lemma AccountedAfterSave(transactions: seq<TransactionRecord>, records: seq<TransactionRecord>,
                           bookings: seq<nat>, nextBookingId: nat)
    requires Accounted(transactions, bookings, nextBookingId)
    requires forall k :: 0 <= k < |records| ==> records[k].bookingId == nextBookingId
    ensures Accounted(transactions + records, bookings, nextBookingId)
    ensures Accounted(transactions + records, bookings + [nextBookingId], nextBookingId + 1)
  {
  }

  /**
   * The count save_transactions reports is the number of rows handed in, not the number
   * inserted: a one-row table whose date does not parse saves without error and inserts nothing.
   */
  lemma SavedCountIsRowCount(parse: Cell -> Option<Timestamp>, source: Option<string>, bookingId: nat)
    requires parse(Text("n/a")).None?
    ensures var t := Table(["Completed Date"], [map["Completed Date" := Text("n/a")]]);
            && WellFormed(t) && |t.rows| == 1
            && Ingest(t, parse, source, bookingId) == IngestOutcome([], None)
  {
    var t := Table(["Completed Date"], [map["Completed Date" := Text("n/a")]]);
    assert t.rows[0].Keys == ColumnSet(t.columns);
    assert FirstDateHeader(t.columns) == Some("Completed Date");
    var parsed := ParseDateColumn(t, "Completed Date", parse);
    var roles := ResolveRoles(parsed.columns);
    assert RoleOf("Completed Date").None?;
    assert roles == map[];
    assert parsed.rows[0]["Completed Date"] == NaT;
    assert RowStep(parsed.rows[0], "Completed Date", roles, source, bookingId) == Skip;
    assert parsed.rows[1..] == [];
    assert RunRows(parsed.rows, "Completed Date", roles, source, bookingId) == IngestOutcome([], None);
    assert Ingest(t, parse, source, bookingId) == RunRows(parsed.rows, "Completed Date", roles, source, bookingId);
  }

  /**
   * Saving a table without records fails: pd.DataFrame([]) has no columns, so handle_date
   * finds no date column and raises before create_booking is reached.
   */
  lemma EmptySaveFails(rows: Table, selected: seq<int>, parse: Cell -> Option<Timestamp>,
                       source: Option<string>, bookingId: nat)
    requires rows.rows == [] && ValidSelection(rows, selected)
    ensures WellFormed(FromRecords(rows)) && ValidSelection(FromRecords(rows), selected)
    ensures Ingest(MarkExcluded(FromRecords(rows), selected), parse, source, bookingId) == IngestOutcome([], Some(NoDateColumn))
  {
    SelectionNeedsRows(rows, selected);
    assert FromRecords(rows).columns == [];
  }

  class Bookkeeper {
    var currentAccountingDf: Option<Table>
    var currentCsvSource: Option<string>
    var currentBookingId: Option<nat>
    /** The ledger operations of db.py. */
    const ledger: Ledger
    /** pd.to_datetime(errors="coerce") on one cell; None and NaN always become NaT. */
    const parse: Cell -> Option<Timestamp>

    /**
     * The staged table is as upload_csv left it, and an active booking id is always the id
     * create_booking will assign next, so the rows saved under it end up in that booking.
     */
    ghost predicate Valid()
      reads this, ledger
    {
      && ledger.Valid()
      && (currentAccountingDf.Some? ==> Staged(currentAccountingDf.value))
      && (currentBookingId.Some? ==> currentBookingId.value == ledger.nextBookingId)
      && Accounted(ledger.transactions, ledger.bookings, ledger.nextBookingId)
      && parse(Missing).None?
    }

    constructor (ledger: Ledger, parse: Cell -> Option<Timestamp>)
      requires ledger.Valid() && Accounted(ledger.transactions, ledger.bookings, ledger.nextBookingId)
      requires parse(Missing).None?
      ensures Valid() && this.ledger == ledger && this.parse == parse
      ensures currentAccountingDf.None? && currentCsvSource.None? && currentBookingId.None?
    {
      this.ledger := ledger;
      this.parse := parse;
      currentAccountingDf, currentCsvSource, currentBookingId := None, None, None;
    }

    /** create_booking_callback: activates the next available booking and enables the upload. */
    method CreateBookingCallback(nClicks: Option<int>) returns (r: Option<(bool, nat)>)
      requires Valid()
      modifies this
      ensures Valid()
      ensures !Clicked(nClicks) ==> r.None? && currentBookingId == old(currentBookingId)
      ensures Clicked(nClicks) ==>
                && currentBookingId == Some(ledger.AvailableBookingId())
                && r == Some((false, ledger.AvailableBookingId()))
      ensures currentAccountingDf == old(currentAccountingDf) && currentCsvSource == old(currentCsvSource)
    {
      if !Clicked(nClicks) {
        return None;
      }
      currentBookingId := Some(ledger.AvailableBookingId());
      r := Some((false, currentBookingId.value));
    }

    /** upload_csv: stages the parsed upload with an "Excluded" column, only while a booking is active. */
    method UploadCsv(contents: Option<Table>, filename: Option<string>) returns (preview: Option<Table>)
      requires Valid() && (contents.Some? ==> WellFormed(contents.value))
      modifies this
      ensures Valid()
      ensures contents.None? || old(currentBookingId).None? ==>
                && preview.None?
                && currentAccountingDf == old(currentAccountingDf)
                && currentCsvSource == old(currentCsvSource)
      ensures contents.Some? && old(currentBookingId).Some? ==>
                && preview == Some(WithUploadFlag(contents.value))
                && currentAccountingDf == preview
                && currentCsvSource == filename
      ensures currentBookingId == old(currentBookingId)
    {
      if contents.None? || currentBookingId.None? {
        return None;
      }
      var df := WithUploadFlag(contents.value);
      currentAccountingDf := Some(df);
      currentCsvSource := filename;
      preview := Some(df);
    }

    /**
     * save_transactions: marks the selected rows, writes the table to the ledger, closes
     * the booking and deactivates it. An exception from the ingestion leaves the booking
     * active and creates none.
     */
    method SaveTransactions(nClicks: Option<int>, selectedRows: Option<seq<int>>, rows: Table)
      returns (r: SaveResult)
      requires Valid() && WellFormed(rows)
      requires selectedRows.Some? ==> ValidSelection(rows, selectedRows.value)
      modifies this, ledger
      ensures Valid()
      ensures r.Prevented? <==> !Clicked(nClicks) || old(currentAccountingDf).None? || old(currentBookingId).None?
      ensures r.Prevented? ==>
                && currentBookingId == old(currentBookingId)
                && ledger.transactions == old(ledger.transactions)
                && ledger.bookings == old(ledger.bookings)
      ensures ledger.nextBookingId == old(ledger.nextBookingId) + (if r.Saved? then 1 else 0)
      ensures r.Saved? ==> r.bookingId == old(ledger.nextBookingId)
      ensures rows.rows == [] && !r.Prevented? ==> r == Failed(NoDateColumn)
      ensures !r.Prevented? ==>
                var o := Ingest(MarkExcluded(FromRecords(rows), SelectedOf(selectedRows)), parse,
                                old(currentCsvSource), old(currentBookingId).value);
                && ledger.transactions == old(ledger.transactions) + o.records
                && (o.failure.Some? ==>
                      && r == Failed(o.failure.value)
                      && ledger.bookings == old(ledger.bookings)
                      && currentBookingId == old(currentBookingId))
                && (o.failure.None? ==>
                      && r == Saved(|rows.rows|, old(currentBookingId).value)
                      && ledger.bookings == old(ledger.bookings) + [old(currentBookingId).value]
                      && currentBookingId.None?)
      ensures currentAccountingDf == old(currentAccountingDf) && currentCsvSource == old(currentCsvSource)
    {
      if !Clicked(nClicks) || currentAccountingDf.None? || currentBookingId.None? {
        return Prevented;
      }
      var df := MarkedFrame(selectedRows, rows);
      if rows.rows == [] {
        EmptySaveFails(rows, SelectedOf(selectedRows), parse, currentCsvSource, currentBookingId.value);
      }
      ghost var before := ledger.transactions;
      ghost var o := Ingest(df, parse, currentCsvSource, currentBookingId.value);
      var failure := InsertTransactionsIntoDatabase(df);
      AccountedAfterSave(before, o.records, ledger.bookings, ledger.nextBookingId);
      if failure.Some? {
        return Failed(failure.value);
      }
      var _ := ledger.CreateBooking();
      var bookingId := currentBookingId.value;
      currentBookingId := None;
      r := Saved(|df.rows|, bookingId);
    }

    /** df = pd.DataFrame(rows), then the selected rows marked when there is a selection. */
    method MarkedFrame(selectedRows: Option<seq<int>>, rows: Table) returns (df: Table)
      requires WellFormed(rows)
      requires selectedRows.Some? ==> ValidSelection(rows, selectedRows.value)
      ensures WellFormed(FromRecords(rows)) && ValidSelection(FromRecords(rows), SelectedOf(selectedRows))
      ensures df == MarkExcluded(FromRecords(rows), SelectedOf(selectedRows))
    {
      df := FromRecords(rows);
      if selectedRows.Some? && selectedRows.value != [] {
        df := MarkSelectedRows(df, selectedRows.value);
      }
    }

    /** The loop of save_transactions: df.at[i, "excluded"] = True for each selected row. */
    method MarkSelectedRows(df: Table, selected: seq<int>) returns (out: Table)
      requires WellFormed(df) && ValidSelection(df, selected)
      ensures out == MarkExcluded(df, selected)
    {
      out := df;
      for k := 0 to |selected|
        invariant out == MarkExcluded(df, selected[..k])
      {
        assert selected[..k + 1][..k] == selected[..k];
        out := SetCell(out, selected[k], SelectionColumn, Bool(true));
      }
      assert selected[..|selected|] == selected;
    }

    /** handle_date: finds the first date header and parses that column, or raises ValueError. */
    method HandleDate(df: Table) returns (r: Result<(string, Table), Failure>)
      requires WellFormed(df)
      ensures FirstDateHeader(df.columns).None? ==> r == Failure(NoDateColumn)
      ensures FirstDateHeader(df.columns).Some? ==>
                var d := FirstDateHeader(df.columns).value;
                d in df.columns && r == Success((d, ParseDateColumn(df, d, parse)))
    {
      var dateColumn: Option<string> := None;
      var i := 0;
      while i < |df.columns|
        invariant 0 <= i <= |df.columns|
        invariant forall j :: 0 <= j < i ==> df.columns[j] !in DateHeaderNames
        invariant dateColumn.Some? ==> i < |df.columns| && dateColumn.value == df.columns[i]
                                       && df.columns[i] in DateHeaderNames
        invariant dateColumn.None? || i < |df.columns|
        decreases |df.columns| - i, dateColumn.None?
      {
        if df.columns[i] in DateHeaderNames {
          dateColumn := Some(df.columns[i]);
          break;
        }
        i := i + 1;
      }
      if dateColumn.None? {
        return Failure(NoDateColumn);
      }
      var d := dateColumn.value;
      r := Success((d, ParseDateColumn(df, d, parse)));
    }

    /** The header loop of insert_transactions_into_database: the elif chain, with no break. */
    method ResolveRoleColumns(columns: seq<string>) returns (roles: map<Role, string>)
      ensures roles == ResolveRoles(columns)
    {
      roles := map[];
      for k := 0 to |columns|
        invariant roles == ResolveRoles(columns[..k])
      {
        assert columns[..k + 1][..k] == columns[..k];
        var header := columns[k];
        if header in AmountHeaderNames {
          roles := roles[Amount := header];
        } else if header in CategoryHeaderNames {
          roles := roles[Category := header];
        } else if header in CurrencyHeaderNames {
          roles := roles[Currency := header];
        } else if header in TypeHeaderNames {
          roles := roles[Type := header];
        } else if header in Flags {
          roles := roles[Flag := header];
        }
      }
      assert columns[..|columns|] == columns;
    }

    /**
     * insert_transactions_into_database: one insert_transaction per row whose date parsed
     * and whose type is not excluded, in row order, stopping at the first exception.
     */
    method InsertTransactionsIntoDatabase(df: Table) returns (failure: Option<Failure>)
      requires WellFormed(df) && currentBookingId.Some?
      modifies ledger
      ensures var o := Ingest(df, parse, currentCsvSource, currentBookingId.value);
              ledger.transactions == old(ledger.transactions) + o.records && failure == o.failure
      ensures ledger.bookings == old(ledger.bookings) && ledger.nextBookingId == old(ledger.nextBookingId)
    {
      var dated := HandleDate(df);
      if dated.Failure? {
        return Some(dated.error);
      }
      var (d, parsed) := dated.value;
      var roles := ResolveRoleColumns(parsed.columns);
      assert forall row :: row in parsed.rows ==> Readable(row, d, roles);
      failure := InsertRows(parsed.rows, d, roles, currentCsvSource, currentBookingId.value);
    }

    /** The row loop of insert_transactions_into_database over the parsed rows. */
    method InsertRows(rows: seq<Row>, d: string, roles: map<Role, string>, source: Option<string>, bookingId: nat)
      returns (failure: Option<Failure>)
      requires forall row :: row in rows ==> Readable(row, d, roles)
      modifies ledger
      ensures var o := RunRows(rows, d, roles, source, bookingId);
              ledger.transactions == old(ledger.transactions) + o.records && failure == o.failure
      ensures ledger.bookings == old(ledger.bookings) && ledger.nextBookingId == old(ledger.nextBookingId)
    {
      ghost var whole := RunRows(rows, d, roles, source, bookingId);
      ghost var before := ledger.transactions;
      ghost var inserted: seq<TransactionRecord> := [];
      failure := None;
      var i := 0;
      while i < |rows| && failure.None?
        invariant 0 <= i <= |rows|
        invariant inserted + RunRows(rows[i..], d, roles, source, bookingId).records == whole.records
        invariant RunRows(rows[i..], d, roles, source, bookingId).failure == whole.failure
        invariant failure.Some? ==> RunRows(rows[i..], d, roles, source, bookingId) == IngestOutcome([], failure)
        invariant ledger.transactions == before + inserted
        invariant ledger.bookings == old(ledger.bookings) && ledger.nextBookingId == old(ledger.nextBookingId)
        decreases |rows| - i, failure.None?
      {
        RunRowsFrom(rows, i, d, roles, source, bookingId);
        assert rows[i] in rows;
        ghost var rest := RunRows(rows[i + 1..], d, roles, source, bookingId);
        var step := ReadRow(rows[i], d, roles, source, bookingId);
        match step {
          case Skip =>
            i := i + 1;
          case Stop(f) =>
            failure := Some(f);
          case Emit(rec) =>
            ghost var prev := inserted;
            ledger.InsertTransaction(rec);
            inserted := inserted + [rec];
            assert ledger.transactions == before + inserted by {
              AppendAssoc(before, prev, [rec]);
            }
            assert inserted + rest.records == whole.records by {
              AppendAssoc(prev, [rec], rest.records);
            }
            i := i + 1;
        }
      }
      if failure.None? {
        assert rows[i..] == [];
      }
      assert inserted == whole.records;
    }

    /**
     * The body of the row loop for one row: skip it, raise, or build the keyword arguments
     * of insert_transaction, evaluating the cells in Python's order.
     */
    method ReadRow(row: Row, d: string, roles: map<Role, string>, source: Option<string>, bookingId: nat)
      returns (step: Step)
      requires Readable(row, d, roles)
      ensures step == RowStep(row, d, roles, source, bookingId)
    {
      var val := row[d];
      if IsNa(val) {
        return Skip;
      }
      if Type !in roles {
        return Stop(UnboundRole(Type));
      }
      if IsExcludedType(row[roles[Type]]) {
        return Skip;
      }
      if !val.Stamp? {
        return Stop(NotATimestamp);
      }
      var date := Strftime(val.t);
      if Category !in roles {
        return Stop(UnboundRole(Category));
      }
      if Currency !in roles {
        return Stop(UnboundRole(Currency));
      }
      if Amount !in roles {
        return Stop(UnboundRole(Amount));
      }
      if Flag !in roles {
        return Stop(UnboundRole(Flag));
      }
      step := Emit(TransactionRecord(date, row[roles[Category]], row[roles[Currency]],
                                     row[roles[Amount]], source, bookingId, row[roles[Flag]]));
    }

    /** clear_current_accounting: drops the staged table. */
    method ClearCurrentAccounting()
      requires Valid()
      modifies this
      ensures Valid() && currentAccountingDf.None?
      ensures currentCsvSource == old(currentCsvSource) && currentBookingId == old(currentBookingId)
    {
      currentAccountingDf := None;
    }
  }
}
