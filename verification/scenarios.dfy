/**
 * Fluent call chains as a caller writes them, with what each one is proved to
 * produce from the binder and facade contracts alone.
 */
module Scenarios {
  import opened Wrappers
  import opened Metadata
  import opened Sql
  import opened RowMapping
  import opened DataManipulate

  /** Table(a).Table(b): the second call succeeds and wins; the table is never locked. */
  method TableTwiceLastWins<V>(first: string, second: string) returns (schema: Option<string>, table: Option<string>)
    ensures schema == Some(DEFAULT_SCHEMA) && table == Some(second)
  {
    var ds := new SpecificDataSet<V>();
    ds := ds.Table(first);
    ds := ds.Table(second);
    schema, table := ds.metaData.schemaName, ds.metaData.tableName;
  }

  /** WithKeys(name, type).Set(v) declares a column (tag `Object`, alias = name) and no key. */
  method TypedKeyDeclaresColumn<V>(name: string, keyType: DbType, v: Value<V>)
    returns (columns: seq<ColumnMetaData<V>>, keys: seq<ColumnMetaData<V>>)
    ensures keys == []
    ensures columns == [ColumnMetaData(name, v, Object, Some(name))]
  {
    var ds := new SpecificDataSet<V>();
    var binder := ds.WithKeysOfType(name, keyType);
    ds := binder.Set(v);
    columns, keys := ds.metaData.columns, ds.metaData.keys;
  }

  /** Switching the transaction on changes neither the update text nor its parameters, whatever was declared. */
  method UpdateIgnoresTransaction<V>(ds: SpecificDataSet<V>, isolation: IsolationLevel, timeoutSeconds: int, option: ScopeOption)
    returns (plain: Result<Statement<V>, Error>, transactional: Result<Statement<V>, Error>)
    requires ds.Valid()
    modifies ds.metaData
    ensures plain == transactional
  {
    plain := ds.Update();
    var _ := ds.WithTransaction(isolation, timeoutSeconds, option);
    transactional := ds.Update();
  }

  /** Table(t).Column(c).Set(v).WithKeys(k).Set(kv).Update(): key parameter first, then the column parameter. */
  method UpdateOne<V>(table: string, col: string, v: Value<V>, key: string, kv: Value<V>)
    returns (update: Result<Statement<V>, Error>)
    ensures update.Success?
    ensures update.value.sql ==
      "update " + (DEFAULT_SCHEMA + "." + table) + " set " + (col + " = :" + (col + "_p"))
      + UPDATE_WHERE + (key + " = :" + (key + "_cnd_p"))
    ensures update.value.parameters == [Parameter(key + "_cnd_p", Object, kv), Parameter(col + "_p", Object, v)]
  {
    var ds := new SpecificDataSet<V>();
    ds := ds.Table(table);
    var c := ds.Column(col);
    ds := c.Set(v);
    var k := ds.WithKeys(key);
    ds := k.Set(kv);
    assert Assignments(ds.metaData.columns) == [col + " = :" + (col + "_p")];
    assert KeyConditions(ds.metaData.keys) == [key + " = :" + (key + "_cnd_p")];
    update := ds.Update();
  }

  /** Table(t).Column(n).Set(v).Insert(): one column, one placeholder, one parameter. */
  method InsertOne<V>(table: string, name: string, v: Value<V>) returns (insert: Statement<V>)
    ensures insert.sql == "insert into " + (DEFAULT_SCHEMA + "." + table) + " (" + name + ") values (" + (":" + (name + "_p")) + ")"
    ensures insert.parameters == [Parameter(name + "_p", Object, v)]
  {
    var ds := new SpecificDataSet<V>();
    ds := ds.Table(table);
    var c := ds.Column(name);
    ds := c.Set(v);
    insert := ds.Insert();
    assert ColumnNames(ds.metaData.columns) == [name];
    assert Placeholders(ds.metaData.columns) == [":" + (name + "_p")];
  }

  /** Table(t).WithKeys(n).Set(v).Delete(): one condition, one key parameter. */
  method DeleteOne<V>(table: string, name: string, v: Value<V>) returns (delete: Result<Statement<V>, Error>)
    ensures delete.Success?
    ensures delete.value.sql == "delete from " + (DEFAULT_SCHEMA + "." + table) + " where " + (name + " = :" + (name + "_cnd_p"))
    ensures delete.value.parameters == [Parameter(name + "_cnd_p", Object, v)]
  {
    var ds := new SpecificDataSet<V>();
    ds := ds.Table(table);
    var k := ds.WithKeys(name);
    ds := k.Set(v);
    assert KeyConditions(ds.metaData.keys) == [name + " = :" + (name + "_cnd_p")];
    delete := ds.Delete();
  }

  /** Insert on a builder with no table still produces a statement: the missing names render empty. */
  method InsertWithoutTable<V>(name: string, v: Value<V>) returns (insert: Statement<V>)
    ensures insert.sql == "insert into " + "." + " (" + name + ") values (" + (":" + (name + "_p")) + ")"
  {
    var ds := new SpecificDataSet<V>();
    var c := ds.Column(name);
    ds := c.Set(v);
    insert := ds.Insert();
    assert ColumnNames(ds.metaData.columns) == [name];
    assert Placeholders(ds.metaData.columns) == [":" + (name + "_p")];
  }

  /** Every other terminal operation refuses a builder with no table. */
  method NoTableFails<V>(rows: seq<Row<V>>) returns (
    truncate: Result<Statement<V>, Error>, update: Result<Statement<V>, Error>,
    delete: Result<Statement<V>, Error>, select: Result<Read<V>, Error>)
    ensures truncate == update == delete == Failure(MissingTableName)
    ensures select == Failure(MissingTableName)
  {
    var ds := new SpecificDataSet<V>();
    truncate := ds.Truncate();
    update := ds.Update();
    delete := ds.Delete();
    select := ds.Select(rows);
  }

  /** Select(query) with nothing declared sends the query unchanged with no parameters. */
  method RawQueryPassesThrough<V>(table: string, query: string, rows: seq<Row<V>>) returns (r: Result<Read<V>, Error>)
    ensures r.Success?
    ensures r.value.statement == Statement(query, [])
  {
    var ds := new SpecificDataSet<V>();
    ds := ds.Table(table);
    r := ds.SelectQuery(query, None, rows);
  }

  /** Declaring the same column twice makes every read fail in the alias dictionary. */
  method DuplicateColumnFailsRead<V>(table: string, name: string, rows: seq<Row<V>>) returns (r: Result<Read<V>, Error>)
    ensures r == Failure(DuplicateKey(name))
  {
    var ds := new SpecificDataSet<V>();
    ds := ds.Table(table);
    ghost var col := ColumnMetaData(name, Null, Object, Some(name));
    var c := ds.Column(name);
    ds := c.Get();
    assert ds.metaData.columns == [col];
    c := ds.Column(name);
    ds := c.Get();
    ghost var cols := ds.metaData.columns;
    assert cols == [col] + [col];
    assert cols[0].columnName == cols[1].columnName;
    AliasDictDuplicate(cols);
    r := ds.Select(rows);
  }
}
