/**
 * The fluent surface of DataManipulate.cs: the column and key binders and the
 * `SpecificDataSet` facade. Terminal operations hand back the statement they
 * would execute (SQL text and parameters); reads take the rows the database
 * returns and give back the records built from them.
 */
module DataManipulate {
  import opened Wrappers
  import opened Metadata
  import opened Sql
  import opened RowMapping

  /** What a read hands back: the statement sent and the records built from the rows returned. */
  datatype Read<V> = Read(statement: Statement<V>, records: seq<Record<V>>)

  /** The parts of the metadata that declaring a column or a key must leave alone. */
  datatype Settings = Settings(
    schemaName: Option<string>, tableName: Option<string>, initializeTable: bool,
    isTransaction: bool, tranScopeOption: ScopeOption, transactionOptions: TransactionOptions)

  ghost function SettingsOf<V>(m: DataSetMetaData<V>): Settings
    reads m
  {
    Settings(m.schemaName, m.tableName, m.initializeTable, m.isTransaction, m.tranScopeOption, m.transactionOptions)
  }

  /** Handle returned by Column(...): binds one value (or none, for a projection) to a column name. */
  class SpecificColumn<V> {
    const columnName: string
    const columnType: DbType
    const dataSet: SpecificDataSet<V>
    var columnAlias: Option<string>

    constructor (columnName: string, dataSet: SpecificDataSet<V>)
      ensures this.columnName == columnName && this.dataSet == dataSet
      ensures columnType == Object && columnAlias == None
    {
      this.columnName := columnName;
      this.dataSet := dataSet;
      this.columnType := Object;
      this.columnAlias := None;
    }

    constructor Typed(columnName: string, columnType: DbType, dataSet: SpecificDataSet<V>)
      ensures this.columnName == columnName && this.dataSet == dataSet
      ensures this.columnType == columnType && columnAlias == None
    {
      this.columnName := columnName;
      this.dataSet := dataSet;
      this.columnType := columnType;
      this.columnAlias := None;
    }

    /** Appends `{name, value, Object, alias ?? name}` to the columns; the declared type is dropped. */
    method Set(colValue: Value<V>) returns (ds: SpecificDataSet<V>)
      requires dataSet.Valid()
      modifies dataSet.metaData
      ensures ds == dataSet && ds.Valid()
      ensures dataSet.metaData.columns ==
        old(dataSet.metaData.columns) + [ColumnMetaData(columnName, colValue, Object, Some(columnAlias.GetOr(columnName)))]
      ensures dataSet.metaData.keys == old(dataSet.metaData.keys)
      ensures SettingsOf(dataSet.metaData) == old(SettingsOf(dataSet.metaData))
    {
      dataSet.metaData.AddColumn(columnName, colValue, columnAlias.GetOr(columnName));
      ds := dataSet;
    }

    /** Records the alias the column is read back under. */
    method As(alias: string) returns (c: SpecificColumn<V>)
      modifies this
      ensures c == this && columnAlias == Some(alias)
    {
      columnAlias := Some(alias);
      c := this;
    }

    /** Declares the column for projection only: appends it with a null value. */
    method Get() returns (ds: SpecificDataSet<V>)
      requires dataSet.Valid()
      modifies dataSet.metaData
      ensures ds == dataSet && ds.Valid()
      ensures dataSet.metaData.columns ==
        old(dataSet.metaData.columns) + [ColumnMetaData(columnName, Null, Object, Some(columnAlias.GetOr(columnName)))]
      ensures dataSet.metaData.keys == old(dataSet.metaData.keys)
      ensures SettingsOf(dataSet.metaData) == old(SettingsOf(dataSet.metaData))
    {
      dataSet.metaData.AddColumn(columnName, Null, columnAlias.GetOr(columnName));
      ds := dataSet;
    }
  }

  /** Handle returned by WithKeys(name): binds one value to a key name. */
  class SpecificKey<V> {
    const keyName: string
    const keyType: DbType
    const dataSet: SpecificDataSet<V>

    constructor (keyName: string, dataSet: SpecificDataSet<V>)
      ensures this.keyName == keyName && this.dataSet == dataSet && keyType == Object
    {
      this.keyName := keyName;
      this.dataSet := dataSet;
      this.keyType := Object;
    }

    /** The typed constructor; the facade never uses it, and Set drops the tag anyway. */
    constructor Typed(keyName: string, keyType: DbType, dataSet: SpecificDataSet<V>)
      ensures this.keyName == keyName && this.dataSet == dataSet && this.keyType == keyType
    {
      this.keyName := keyName;
      this.dataSet := dataSet;
      this.keyType := keyType;
    }

    /** Appends `{name, value, Object}` to the keys; the columns are left alone. */
    method Set(colValue: Value<V>) returns (ds: SpecificDataSet<V>)
      requires dataSet.Valid()
      modifies dataSet.metaData
      ensures ds == dataSet && ds.Valid()
      ensures dataSet.metaData.keys == old(dataSet.metaData.keys) + [ColumnMetaData(keyName, colValue, Object, None)]
      ensures dataSet.metaData.columns == old(dataSet.metaData.columns)
      ensures SettingsOf(dataSet.metaData) == old(SettingsOf(dataSet.metaData))
    {
      dataSet.metaData.AddKey(keyName, colValue);
      ds := dataSet;
    }
  }

  /** The statement builder. The connection it executes on is not part of this model. */
  class SpecificDataSet<V> {
    var metaData: DataSetMetaData<V>

    /**
     * What every reachable metadata state satisfies: the table flag is never set,
     * every entry is tagged `Object`, every column carries an alias and no key does.
     */
    ghost predicate Valid()
      reads this, metaData
    {
      && metaData.Valid()
      && TagsDropped(metaData.columns) && TagsDropped(metaData.keys)
      && AliasesPresent(metaData.columns) && NoAliases(metaData.keys)
    }

    constructor ()
      ensures Valid() && fresh(metaData) && metaData.IsDefault()
    {
      metaData := new DataSetMetaData();
    }

    /** Targets `public.<tableName>`; a later call overwrites an earlier one. */
    method Table(tableName: string) returns (ds: SpecificDataSet<V>)
      requires Valid()
      modifies metaData
      ensures ds == this && Valid()
      ensures metaData.schemaName == Some(DEFAULT_SCHEMA) && metaData.tableName == Some(tableName)
      ensures metaData.columns == old(metaData.columns) && metaData.keys == old(metaData.keys)
      ensures metaData.isTransaction == old(metaData.isTransaction)
      ensures metaData.tranScopeOption == old(metaData.tranScopeOption)
      ensures metaData.transactionOptions == old(metaData.transactionOptions)
    {
      var outcome := metaData.SetTable(DEFAULT_SCHEMA, tableName);
      assert outcome == Pass;
      ds := this;
    }

    /** Targets `<schemaName>.<tableName>`; a later call overwrites an earlier one. */
    method TableInSchema(schemaName: string, tableName: string) returns (ds: SpecificDataSet<V>)
      requires Valid()
      modifies metaData
      ensures ds == this && Valid()
      ensures metaData.schemaName == Some(schemaName) && metaData.tableName == Some(tableName)
      ensures metaData.columns == old(metaData.columns) && metaData.keys == old(metaData.keys)
      ensures metaData.isTransaction == old(metaData.isTransaction)
      ensures metaData.tranScopeOption == old(metaData.tranScopeOption)
      ensures metaData.transactionOptions == old(metaData.transactionOptions)
    {
      var outcome := metaData.SetTable(schemaName, tableName);
      assert outcome == Pass;
      ds := this;
    }

    /** A fresh column binder; nothing is declared until it is Set or Get. */
    method Column(columnName: string) returns (c: SpecificColumn<V>)
      ensures fresh(c) && c.dataSet == this && c.columnName == columnName
      ensures c.columnType == Object && c.columnAlias == None
    {
      c := new SpecificColumn(columnName, this);
    }

    /** A fresh column binder carrying a type tag that Set and Get will not store. */
    method ColumnOfType(columnName: string, columnType: DbType) returns (c: SpecificColumn<V>)
      ensures fresh(c) && c.dataSet == this && c.columnName == columnName
      ensures c.columnType == columnType && c.columnAlias == None
    {
      c := new SpecificColumn.Typed(columnName, columnType, this);
    }

    /** A fresh key binder. */
    method WithKeys(keyColumnName: string) returns (k: SpecificKey<V>)
      ensures fresh(k) && k.dataSet == this && k.keyName == keyColumnName && k.keyType == Object
    {
      k := new SpecificKey(keyColumnName, this);
    }

    /** The typed overload hands out a COLUMN binder: its Set grows the columns, not the keys. */
    method WithKeysOfType(keyColumnName: string, keyColumnType: DbType) returns (c: SpecificColumn<V>)
      ensures fresh(c) && c.dataSet == this && c.columnName == keyColumnName
      ensures c.columnType == keyColumnType && c.columnAlias == None
    {
      c := new SpecificColumn.Typed(keyColumnName, keyColumnType, this);
    }

    /** Switches the transaction on and stores its settings; nothing else changes. */
    method WithTransaction(isolationLevel: IsolationLevel, timeoutSeconds: int, transactionOption: ScopeOption)
      returns (ds: SpecificDataSet<V>)
      requires Valid()
      modifies metaData
      ensures ds == this && Valid()
      ensures metaData.isTransaction && metaData.tranScopeOption == transactionOption
      ensures metaData.transactionOptions == TransactionOptions(isolationLevel, timeoutSeconds)
      ensures metaData.columns == old(metaData.columns) && metaData.keys == old(metaData.keys)
      ensures metaData.schemaName == old(metaData.schemaName) && metaData.tableName == old(metaData.tableName)
    {
      metaData.tranScopeOption := transactionOption;
      metaData.transactionOptions := TransactionOptions(isolationLevel, timeoutSeconds);
      metaData.isTransaction := true;
      ds := this;
    }

    /** Replaces the metadata by a fresh one in its default state. */
    method ClearMetaData() returns (ds: SpecificDataSet<V>)
      modifies this
      ensures ds == this && Valid() && fresh(metaData) && metaData.IsDefault()
    {
      metaData := new DataSetMetaData();
      ds := this;
    }

    /** CheckExistsTableName: fails exactly when no table was set. */
    function CheckExistsTableName(): (o: Outcome<Error>)
      reads this, metaData
      ensures o.Fail? <==> metaData.tableName.None?
      ensures o.Fail? ==> o.error == MissingTableName
    {
      if metaData.tableName.None? then Fail(MissingTableName) else Pass
    }

    /** `truncate table s.t;` with no parameters, once a table is set. */
    method Truncate() returns (r: Result<Statement<V>, Error>)
      ensures r.Failure? <==> metaData.tableName.None?
      ensures r.Failure? ==> r.error == MissingTableName
      ensures r.Success? ==> r.value == Statement(TruncateSql(metaData.schemaName, metaData.tableName), [])
    {
      var check := CheckExistsTableName();
      if check.Fail? {
        return Failure(check.error);
      }
      r := Success(Statement(TruncateSql(metaData.schemaName, metaData.tableName), []));
    }

    /** The insert statement; Insert never checks for a table, and ignores the transaction settings. */
    method Insert() returns (st: Statement<V>)
      ensures st.sql == InsertSql(metaData.schemaName, metaData.tableName, metaData.columns)
      ensures st.parameters == ColsParameters(metaData.columns)
    {
      st := Statement(InsertSql(metaData.schemaName, metaData.tableName, metaData.columns),
                      ColsParameters(metaData.columns));
    }

    /** The update statement: key parameters, then column parameters; the transaction settings play no part. */
    method Update() returns (r: Result<Statement<V>, Error>)
      ensures r.Failure? <==> metaData.tableName.None?
      ensures r.Failure? ==> r.error == MissingTableName
      ensures r.Success? ==> r.value.sql == UpdateSql(metaData.schemaName, metaData.tableName, metaData.columns, metaData.keys)
      ensures r.Success? ==> r.value.parameters == UpdateParameters(metaData.columns, metaData.keys)
    {
      var check := CheckExistsTableName();
      if check.Fail? {
        return Failure(check.error);
      }
      r := Success(Statement(UpdateSql(metaData.schemaName, metaData.tableName, metaData.columns, metaData.keys),
                             KeysParameters(metaData.keys) + ColsParameters(metaData.columns)));
    }

    /** The delete statement, filtered by the keys predicate, with the key parameters only. */
    method Delete() returns (r: Result<Statement<V>, Error>)
      ensures r.Failure? <==> metaData.tableName.None?
      ensures r.Failure? ==> r.error == MissingTableName
      ensures r.Success? ==> r.value.sql == DeleteSql(metaData.schemaName, metaData.tableName, metaData.keys)
      ensures r.Success? ==> r.value.parameters == KeysParameters(metaData.keys)
    {
      var check := CheckExistsTableName();
      if check.Fail? {
        return Failure(check.error);
      }
      r := Success(Statement(DeleteSql(metaData.schemaName, metaData.tableName, metaData.keys),
                             KeysParameters(metaData.keys)));
    }

    /**
     * The mapping loop of SqlRead: fails when two declared columns share a name,
     * otherwise one record per row, in row order, each built by MapRow.
     */
    method SqlRead(rows: seq<Row<V>>) returns (r: Result<seq<Record<V>>, Error>)
      ensures r.Failure? <==> !DistinctNames(metaData.columns)
      ensures r.Failure? ==> r == Failure(AliasDict(metaData.columns).error)
      ensures r.Success? ==>
        r.value == MapRows(AliasDict(metaData.columns).value, rows)
    {
      var colAliasDict := AliasDict(metaData.columns);
      if colAliasDict.Failure? {
        return Failure(colAliasDict.error);
      }
      var results := ReadRows(colAliasDict.value, rows);
      r := Success(results);
    }

    /** The reader loop: one record per row, in the order the rows arrive. */
    static method ReadRows(dict: map<string, string>, rows: seq<Row<V>>) returns (results: seq<Record<V>>)
      ensures results == MapRows(dict, rows)
    {
      results := [];
      var n := 0;
      while n < |rows|
        invariant 0 <= n <= |rows|
        invariant results == MapRows(dict, rows[..n])
      {
        var expando := ReadRow(dict, rows[n]);
        assert rows[..n + 1][..n] == rows[..n];
        results := results + [expando];
        n := n + 1;
      }
      assert rows[..|rows|] == rows;
    }

    /** The body of the reader loop: one row becomes one record, field by field, left to right. */
    static method ReadRow(dict: map<string, string>, row: Row<V>) returns (expando: Record<V>)
      ensures expando == MapRow(dict, row)
    {
      expando := [];
      for i := 0 to |row|
        invariant expando == MapRow(dict, row[..i])
      {
        var key := row[i].name;
        var columnName := if key in dict then dict[key] else key;
        assert row[..i + 1][..i] == row[..i];
        expando := Assign(expando, columnName, row[i].value);
      }
      assert row[..|row|] == row;
    }

    /** Select(): the keyed select over the declared columns, then the rows read back through the aliases. */
    method Select(rows: seq<Row<V>>) returns (r: Result<Read<V>, Error>)
      ensures r.Success? <==> metaData.tableName.Some? && DistinctNames(metaData.columns)
      ensures metaData.tableName.None? ==> r == Failure(MissingTableName)
      ensures metaData.tableName.Some? && !DistinctNames(metaData.columns) ==>
        r == Failure(AliasDict(metaData.columns).error)
      ensures r.Success? ==>
        && metaData.tableName.Some? && DistinctNames(metaData.columns)
        && r.value.statement.sql == SelectSql(metaData.schemaName, metaData.tableName, metaData.columns, metaData.keys)
        && r.value.statement.parameters == KeysParameters(metaData.keys)
        && r.value.records == MapRows(AliasDict(metaData.columns).value, rows)
    {
      var check := CheckExistsTableName();
      if check.Fail? {
        return Failure(check.error);
      }
      var statement := Statement(SelectSql(metaData.schemaName, metaData.tableName, metaData.columns, metaData.keys),
                                 KeysParameters(metaData.keys));
      var records := SqlRead(rows);
      if records.Failure? {
        return Failure(records.error);
      }
      r := Success(Read(statement, records.value));
    }

    /** Select(query, parameters): the caller's query, wrapped and filtered as declared, then read back. */
    method SelectQuery(query: string, parameters: Option<seq<Parameter<V>>>, rows: seq<Row<V>>)
      returns (r: Result<Read<V>, Error>)
      ensures r.Success? <==> metaData.tableName.Some? && DistinctNames(metaData.columns)
      ensures metaData.tableName.None? ==> r == Failure(MissingTableName)
      ensures metaData.tableName.Some? && !DistinctNames(metaData.columns) ==>
        r == Failure(AliasDict(metaData.columns).error)
      ensures r.Success? ==>
        && metaData.tableName.Some? && DistinctNames(metaData.columns)
        && r.value.statement.sql == SelectQuerySql(query, metaData.columns, metaData.keys)
        && r.value.statement.parameters == SelectQueryParameters(parameters, metaData.keys)
        && r.value.records == MapRows(AliasDict(metaData.columns).value, rows)
    {
      var check := CheckExistsTableName();
      if check.Fail? {
        return Failure(check.error);
      }
      var sql := query;
      if |metaData.columns| > 0 {
        sql := "select " + ColsForSelect(metaData.columns) + " from (" + sql + ") d";
      }
      if |metaData.keys| > 0 {
        sql := sql + (" where " + KeysWhere(metaData.keys) + " ");
      }
      var records := SqlRead(rows);
      if records.Failure? {
        return Failure(records.error);
      }
      r := Success(Read(Statement(sql, SelectQueryParameters(parameters, metaData.keys)), records.value));
    }
  }
}
