/**
 * The forecast store: a table of seven-column rows whose five-column key
 * (valid time, run time, latitude, longitude, variable) is UNIQUE, and an
 * insert that stages a batch in a temporary table and copies across the
 * rows whose key is not stored yet (`INSERT ... ON CONFLICT DO NOTHING`).
 */
module DbManager {
  import opened Wrappers
  import opened Records

  /** No two rows share a key: the table's UNIQUE constraint. */
  predicate UniqueKeys(rows: seq<ForecastRecord>) {
    forall i, j :: 0 <= i < j < |rows| ==> KeyOf(rows[i]) != KeyOf(rows[j])
  }

  function Keys(rows: seq<ForecastRecord>): set<Key> {
    set r | r in rows :: KeyOf(r)
  }

  /** The batch rows whose key the table does not hold, in batch order. */
  function Fresh(rows: seq<ForecastRecord>, batch: seq<ForecastRecord>): seq<ForecastRecord>
    decreases |batch|
  {
    if batch == [] then []
    else
      var last := batch[|batch| - 1];
      Fresh(rows, batch[..|batch| - 1]) + (if KeyOf(last) in Keys(rows) then [] else [last])
  }

  /** The table after `INSERT ... ON CONFLICT DO NOTHING` of a batch. */
  function InsertAbsent(rows: seq<ForecastRecord>, batch: seq<ForecastRecord>): seq<ForecastRecord> {
    rows + Fresh(rows, batch)
  }

  /** A row is inserted exactly when it is in the batch and its key is absent. */
  lemma {:induction false} FreshMembers(rows: seq<ForecastRecord>, batch: seq<ForecastRecord>)
    ensures forall r :: r in Fresh(rows, batch) <==> r in batch && KeyOf(r) !in Keys(rows)
    decreases |batch|
  {
    if batch != [] {
      var init := batch[..|batch| - 1];
      FreshMembers(rows, init);
      assert batch == init + [batch[|batch| - 1]];
    }
  }

  /** Inserted rows keep the batch's key distinctness. */
  lemma {:induction false} FreshUnique(rows: seq<ForecastRecord>, batch: seq<ForecastRecord>)
    requires UniqueKeys(batch)
    ensures UniqueKeys(Fresh(rows, batch))
    decreases |batch|
  {
    if batch != [] {
      var init := batch[..|batch| - 1];
      var last := batch[|batch| - 1];
      FreshUnique(rows, init);
      FreshMembers(rows, init);
      var f := Fresh(rows, init);
      forall k | 0 <= k < |f|
        ensures KeyOf(f[k]) != KeyOf(last)
      {
        assert f[k] in init;
        var m :| 0 <= m < |init| && init[m] == f[k];
        assert batch[m] == f[k];
      }
    }
  }

  /** After the insert no two rows share a key. */
  lemma InsertKeepsUnique(rows: seq<ForecastRecord>, batch: seq<ForecastRecord>)
    requires UniqueKeys(rows) && UniqueKeys(batch)
    ensures UniqueKeys(InsertAbsent(rows, batch))
  {
    FreshUnique(rows, batch);
    FreshMembers(rows, batch);
    var f := Fresh(rows, batch);
    var t := InsertAbsent(rows, batch);
    forall i, j | 0 <= i < j < |t|
      ensures KeyOf(t[i]) != KeyOf(t[j])
    {
      if j >= |rows| && i < |rows| {
        assert t[j] == f[j - |rows|];
        assert t[j] in f;
        assert KeyOf(t[i]) in Keys(rows);
      } else if i >= |rows| {
        assert t[i] == f[i - |rows|] && t[j] == f[j - |rows|];
      }
    }
  }

  /**
   * Stored rows are neither modified nor removed; every added row comes
   * from the batch and its key was absent before; every batch row whose key
   * was absent is stored with all seven columns.
   */
  lemma InsertAddsAbsent(rows: seq<ForecastRecord>, batch: seq<ForecastRecord>)
    ensures |InsertAbsent(rows, batch)| >= |rows| && InsertAbsent(rows, batch)[..|rows|] == rows
    ensures forall k :: |rows| <= k < |InsertAbsent(rows, batch)| ==>
      InsertAbsent(rows, batch)[k] in batch && KeyOf(InsertAbsent(rows, batch)[k]) !in Keys(rows)
    ensures forall b :: b in batch && KeyOf(b) !in Keys(rows) ==> b in InsertAbsent(rows, batch)
  {
    FreshMembers(rows, batch);
    var t := InsertAbsent(rows, batch);
    forall k | |rows| <= k < |t|
      ensures t[k] in batch && KeyOf(t[k]) !in Keys(rows)
    {
      assert t[k] == Fresh(rows, batch)[k - |rows|];
    }
  }

  /**
   * A batch row whose key is already stored is dropped: the only row with
   * that key afterwards is the stored one, its value and source kept.
   */
  lemma InsertDropsConflicts(rows: seq<ForecastRecord>, batch: seq<ForecastRecord>, b: ForecastRecord)
    requires b in batch && KeyOf(b) in Keys(rows)
    ensures forall r :: r in InsertAbsent(rows, batch) && KeyOf(r) == KeyOf(b) ==> r in rows
  {
    FreshMembers(rows, batch);
  }

  /** The stored keys afterwards are the old keys and the batch's keys. */
  lemma InsertKeys(rows: seq<ForecastRecord>, batch: seq<ForecastRecord>)
    ensures Keys(InsertAbsent(rows, batch)) == Keys(rows) + Keys(batch)
  {
    FreshMembers(rows, batch);
    var t := InsertAbsent(rows, batch);
    forall key | key in Keys(rows) + Keys(batch)
      ensures key in Keys(t)
    {
      if key !in Keys(rows) {
        var b :| b in batch && KeyOf(b) == key;
        assert b in t;
      } else {
        var r :| r in rows && KeyOf(r) == key;
        assert r in t;
      }
    }
  }

  /** Inserting the same batch a second time changes nothing. */
  lemma InsertIdempotent(rows: seq<ForecastRecord>, batch: seq<ForecastRecord>)
    ensures InsertAbsent(InsertAbsent(rows, batch), batch) == InsertAbsent(rows, batch)
  {
    var t := InsertAbsent(rows, batch);
    InsertKeys(rows, batch);
    FreshMembers(t, batch);
    NoFresh(t, batch);
  }

  /** A batch whose every key is stored inserts nothing. */
  lemma {:induction false} NoFresh(rows: seq<ForecastRecord>, batch: seq<ForecastRecord>)
    requires forall b :: b in batch ==> KeyOf(b) in Keys(rows)
    ensures Fresh(rows, batch) == []
    decreases |batch|
  {
    if batch != [] {
      var init := batch[..|batch| - 1];
      assert forall b :: b in init ==> b in batch;
      NoFresh(rows, init);
    }
  }

  /**
   * Why `insert_data` fails: the DataFrame of an empty extraction has no
   * columns, so reading its time columns raises before anything is
   * registered; or the forecast table is missing, so the INSERT raises.
   */
  datatype DbError = MissingColumns | MissingTable

  /**
   * A connection to the database file: whether the forecast table exists,
   * its rows, the DataFrame registered as the view `df_temp`, and the
   * temporary table `temp_hrrr_insert`.
   */
  class Connection {
    var tableExists: bool
    var rows: seq<ForecastRecord>
    var registered: Option<seq<ForecastRecord>>
    var staging: Option<seq<ForecastRecord>>

    /** The table's constraint holds, and a missing table holds nothing. */
    ghost predicate Valid()
      reads this
    {
      UniqueKeys(rows) && (!tableExists ==> rows == [])
    }

    /** `duckdb.connect` on a database file in the given state. */
    constructor (tableExists: bool, rows: seq<ForecastRecord>)
      requires UniqueKeys(rows) && (!tableExists ==> rows == [])
      ensures Valid()
      ensures this.tableExists == tableExists && this.rows == rows
      ensures registered.None? && staging.None?
    {
      this.tableExists := tableExists;
      this.rows := rows;
      registered := None;
      staging := None;
    }

    /** `CREATE TABLE IF NOT EXISTS`: an existing table is left as it is. */
    method CreateTableIfNotExists()
      requires Valid()
      modifies this
      ensures Valid()
      ensures tableExists
      ensures rows == old(rows)
      ensures registered == old(registered) && staging == old(staging)
    {
      if !tableExists {
        tableExists := true;
        rows := [];
      }
    }

    /**
     * `insert_data`: register the batch, copy it into the temporary table,
     * insert the rows whose key is absent, then unregister the view and
     * drop the temporary table. An empty batch is a DataFrame without
     * columns: the time conversion raises and nothing is touched. Without
     * the forecast table the INSERT raises and the view and the temporary
     * table stay behind.
     */
    method InsertData(batch: seq<ForecastRecord>) returns (r: Result<(), DbError>)
      requires Valid() && UniqueKeys(batch)
      modifies this
      ensures Valid()
      ensures tableExists == old(tableExists)
      ensures batch == [] ==>
        r == Failure(MissingColumns) && rows == old(rows) && registered == old(registered) && staging == old(staging)
      ensures batch != [] && old(tableExists) ==>
        r.Success? && rows == InsertAbsent(old(rows), batch) && registered.None? && staging.None?
      ensures batch != [] && !old(tableExists) ==>
        r == Failure(MissingTable) && rows == old(rows) && registered == Some(batch) && staging == Some(batch)
    {
      if batch == [] {
        return Failure(MissingColumns);
      }
      registered := Some(batch);
      staging := registered;
      if !tableExists {
        return Failure(MissingTable);
      }
      InsertKeepsUnique(rows, staging.value);
      rows := InsertAbsent(rows, staging.value);
      registered := None;
      staging := None;
      return Success(());
    }
  }

  /**
   * Creating the table and inserting one batch twice stores the batch
   * once, with no duplicate keys and, for a non-empty batch, nothing staged
   * afterwards (an empty batch fails before staging anything).
   */
  method InsertTwice(con: Connection, batch: seq<ForecastRecord>)
    requires con.Valid() && UniqueKeys(batch)
    modifies con
    ensures con.Valid() && con.tableExists
    ensures con.rows == InsertAbsent(old(con.rows), batch)
    ensures batch != [] ==> con.registered.None? && con.staging.None?
    ensures batch == [] ==> con.registered == old(con.registered) && con.staging == old(con.staging)
  {
    con.CreateTableIfNotExists();
    ghost var before := con.rows;
    var first := con.InsertData(batch);
    var second := con.InsertData(batch);
    InsertIdempotent(before, batch);
  }
}
