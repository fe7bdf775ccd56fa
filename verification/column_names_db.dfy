/**
 * The learned column-name store of column_names_db.py: five SQLite tables
 * (amount, currency, recipient, date, type), each one TEXT column under a UNIQUE
 * constraint. The database is a map from the tables created so far to their
 * rows in insertion (rowid) order.
 */
module ColumnNamesDb {
  import opened Wrappers
  import opened Seqs

  datatype TableName = AmountTable | CurrencyTable | RecipientTable | DateTable | TypeTable

  /** The SQL name of a table, which is also the name of its one text column. */
  function NameText(t: TableName): string
  {
    match t
    case AmountTable => "amount"
    case CurrencyTable => "currency"
    case RecipientTable => "recipient"
    case DateTable => "date"
    case TypeTable => "type"
  }

  /** The table a name given to an f-string query refers to; no other name has a table. */
  function TableNamed(name: string): (t: Option<TableName>)
    ensures t.Some? <==> name in ["amount", "currency", "recipient", "date", "type"]
    ensures t.Some? ==> NameText(t.value) == name
  {
    if name == "amount" then Some(AmountTable)
    else if name == "currency" then Some(CurrencyTable)
    else if name == "recipient" then Some(RecipientTable)
    else if name == "date" then Some(DateTable)
    else if name == "type" then Some(TypeTable)
    else None
  }

  lemma TableNamedNameText(t: TableName)
    ensures TableNamed(NameText(t)) == Some(t)
  {
  }

  datatype DbError = NoSuchTable(name: string)

  type Store = map<TableName, seq<string>>

  /** The UNIQUE constraint: no table holds a header twice. */
  predicate Consistent(db: Store)
  {
    forall t :: t in db ==> Distinct(db[t])
  }

  /** INSERT OR IGNORE of v into one UNIQUE text column. */
  function InsertOrIgnore(rows: seq<string>, v: string): (r: seq<string>)
    ensures forall x :: x in r <==> x in rows || x == v
    ensures rows <= r && |r| <= |rows| + 1
    ensures v in rows ==> r == rows
    ensures Distinct(rows) ==> Distinct(r)
  {
    if v in rows then rows else rows + [v]
  }

  /** CREATE TABLE IF NOT EXISTS t. */
  function CreatedIfMissing(db: Store, t: TableName): (r: Store)
    ensures r.Keys == db.Keys + {t}
    ensures forall u :: u in db ==> r[u] == db[u]
    ensures t !in db ==> r[t] == []
    ensures Consistent(db) ==> Consistent(r)
  {
    if t in db then db else db[t := []]
  }

  /** The store after init_columns_db: the five CREATE TABLE IF NOT EXISTS in order. */
  function Initialized(db: Store): (r: Store)
    ensures AmountTable in r && CurrencyTable in r && RecipientTable in r && DateTable in r && TypeTable in r
    ensures forall t :: t in db ==> t in r && r[t] == db[t]
    ensures Consistent(db) ==> Consistent(r)
  {
    CreatedIfMissing(CreatedIfMissing(CreatedIfMissing(CreatedIfMissing(CreatedIfMissing(
      db, AmountTable), CurrencyTable), RecipientTable), DateTable), TypeTable)
  }

  /** After initialisation a table exists; it keeps its rows if it existed and is empty otherwise. */
  lemma InitializedTable(db: Store, t: TableName)
    ensures t in Initialized(db)
    ensures Initialized(db)[t] == if t in db then db[t] else []
  {
  }

  /** After initialisation all five tables exist; tables that existed keep their rows, new ones are empty. */
  lemma InitializedKeepsContents(db: Store)
    ensures forall t: TableName :: t in Initialized(db) && Initialized(db)[t] == if t in db then db[t] else []
    ensures Consistent(db) ==> Consistent(Initialized(db))
  {
    forall t: TableName
      ensures t in Initialized(db) && Initialized(db)[t] == if t in db then db[t] else []
    {
      InitializedTable(db, t);
    }
  }

  /** Initialising twice is initialising once. */
  lemma InitializedIdempotent(db: Store)
    ensures Initialized(Initialized(db)) == Initialized(db)
  {
    InitializedKeepsContents(db);
  }

  /** The table a query names, when that table exists. */
  function Lookup(db: Store, tablename: string): (r: Option<TableName>)
    ensures r.Some? <==> TableNamed(tablename).Some? && TableNamed(tablename).value in db
    ensures r.Some? ==> r.value in db && NameText(r.value) == tablename
  {
    match TableNamed(tablename)
    case Some(t) => if t in db then Some(t) else None
    case None => None
  }

  /** fetch_names: the headers of one table, or the error a query on a missing table raises. */
  function Names(db: Store, tablename: string): (r: Result<seq<string>, DbError>)
    ensures r.Failure? <==> Lookup(db, tablename).None?
    ensures r.Success? ==> r.value == db[Lookup(db, tablename).value]
    ensures r.Success? && Consistent(db) ==> Distinct(r.value)
  {
    match Lookup(db, tablename)
    case Some(t) => Success(db[t])
    case None => Failure(NoSuchTable(tablename))
  }

  /**
   * insert_column_name: nothing happens for None (not even the table name is looked at);
   * otherwise the named table must exist and gets the value unless it already holds it.
   */
  function Inserted(db: Store, tablename: string, value: Option<string>): (r: Result<Store, DbError>)
    ensures value.None? ==> r == Success(db)
    ensures r.Failure? <==> value.Some? && Lookup(db, tablename).None?
    ensures r.Success? ==> r.value.Keys == db.Keys
    ensures r.Success? ==> forall t :: t in db ==> db[t] <= r.value[t]
    ensures r.Success? ==> forall t :: t in db && Some(t) != Lookup(db, tablename) ==> r.value[t] == db[t]
    ensures r.Success? && value.Some? ==> value.value in Names(r.value, tablename).value
    ensures r.Success? && value.Some? && value.value in Names(db, tablename).value ==> r.value == db
    ensures r.Success? && Consistent(db) ==> Consistent(r.value)
  {
    match value
    case None => Success(db)
    case Some(v) =>
      match Lookup(db, tablename)
      case None => Failure(NoSuchTable(tablename))
      case Some(t) => Success(db[t := InsertOrIgnore(db[t], v)])
  }

  /** Inserting the same value twice leaves the store as inserting it once. */
  lemma InsertedTwice(db: Store, tablename: string, value: Option<string>)
    requires Inserted(db, tablename, value).Success?
    ensures Inserted(Inserted(db, tablename, value).value, tablename, value) == Inserted(db, tablename, value)
  {
  }

  /** A run of insert_column_name calls on one table, stopping at the first error. */
  function InsertedAll(db: Store, tablename: string, values: seq<string>): (r: Result<Store, DbError>)
    ensures r.Failure? <==> values != [] && Lookup(db, tablename).None?
    ensures r.Success? ==> r.value.Keys == db.Keys
  {
    if values == [] then Success(db)
    else match Inserted(db, tablename, Some(values[0]))
      case Failure(e) => Failure(e)
      case Success(db') => InsertedAll(db', tablename, values[1..])
  }

  /**
   * Learning a list of headers into an existing table: the table ends up holding exactly its
   * old headers and the new ones, still without repeats, the old ones first and in their old
   * order; the other tables do not change.
   */
  lemma {:induction false} InsertedAllLearnsEach(db: Store, tablename: string, values: seq<string>)
    requires Consistent(db) && Lookup(db, tablename).Some?
    ensures InsertedAll(db, tablename, values).Success?
    ensures var t := Lookup(db, tablename).value;
            var after := InsertedAll(db, tablename, values).value;
            && Consistent(after) && after.Keys == db.Keys
            && db[t] <= after[t]
            && (forall x :: x in after[t] <==> x in db[t] || x in values)
            && (forall u :: u in db && u != t ==> after[u] == db[u])
  {
    if values != [] {
      var t := Lookup(db, tablename).value;
      var db' := Inserted(db, tablename, Some(values[0])).value;
      assert Lookup(db', tablename) == Some(t);
      InsertedAllLearnsEach(db', tablename, values[1..]);
      var after := InsertedAll(db', tablename, values[1..]).value;
      assert InsertedAll(db, tablename, values).value == after;
      forall x
        ensures x in after[t] <==> x in db[t] || x in values
      {
        assert x in values <==> x == values[0] || x in values[1..];
      }
    }
  }

  /** The store behind the module's functions; each call opens and closes its own connection. */
  class ColumnNames {
    var tables: Store

    ghost predicate Valid()
      reads this
    {
      Consistent(tables)
    }

    /** A database file in which no table has been created yet. */
    constructor ()
      ensures Valid() && tables == map[]
    {
      tables := map[];
    }

    method CreateTableIfNotExists(t: TableName)
      requires Valid()
      modifies this
      ensures Valid() && tables == CreatedIfMissing(old(tables), t)
    {
      if t !in tables {
        tables := tables[t := []];
      }
    }

    /** init_columns_db: creates the five tables one after the other. */
    method InitColumnsDb()
      requires Valid()
      modifies this
      ensures Valid() && tables == Initialized(old(tables))
    {
      CreateTableIfNotExists(AmountTable);
      CreateTableIfNotExists(CurrencyTable);
      CreateTableIfNotExists(RecipientTable);
      CreateTableIfNotExists(DateTable);
      CreateTableIfNotExists(TypeTable);
    }

    /** insert_column_name(tablename, value). */
    method InsertColumnName(tablename: string, value: Option<string>) returns (r: Result<(), DbError>)
      requires Valid()
      modifies this
      ensures Valid()
      ensures r.Success? <==> Inserted(old(tables), tablename, value).Success?
      ensures tables == if r.Success? then Inserted(old(tables), tablename, value).value else old(tables)
    {
      if value.None? {
        return Success(());
      }
      var t := Lookup(tables, tablename);
      if t.None? {
        return Failure(NoSuchTable(tablename));
      }
      tables := tables[t.value := InsertOrIgnore(tables[t.value], value.value)];
      r := Success(());
    }

    /** fetch_names(tablename). */
    function FetchNames(tablename: string): (r: Result<seq<string>, DbError>)
      reads this
      requires Valid()
      ensures r.Success? ==> Distinct(r.value)
      ensures r == Names(tables, tablename)
    {
      Names(tables, tablename)
    }
  }
}
