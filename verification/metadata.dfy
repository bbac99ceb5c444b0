/**
 * The statement metadata of DataManipulate.cs: the column/key entries, the
 * transaction settings, the errors the builder throws, and the mutable
 * accumulator `DataSetMetaData` that the fluent calls fill in.
 */
module Metadata {
  import opened Wrappers

  /** The ADO.NET parameter type tags (System.Data.DbType); only carried, never interpreted. */
  datatype DbType =
    | AnsiString | Binary | Byte | Boolean | Currency | Date | DateTime | Decimal | Double
    | Guid | Int16 | Int32 | Int64 | Object | SByte | Single | String | Time | UInt16
    | UInt32 | UInt64 | VarNumeric | AnsiStringFixedLength | StringFixedLength | Xml
    | DateTime2 | DateTimeOffset

  /** System.Transactions.IsolationLevel. */
  datatype IsolationLevel =
    Serializable | RepeatableRead | ReadCommitted | ReadUncommitted | Snapshot | Chaos | Unspecified

  /** System.Transactions.TransactionScopeOption. */
  datatype ScopeOption = Required | RequiresNew | Suppress

  /** System.Transactions.TransactionOptions; the timeout is kept in whole seconds as it is given. */
  datatype TransactionOptions = TransactionOptions(isolationLevel: IsolationLevel, timeoutSeconds: int)

  /** A column, key or field value: the database null, or an opaque value of the caller's type. */
  datatype Value<V> = Null | Of(v: V)

  /** One entry of `Columns` or `Keys`. Keys never carry an alias. */
  datatype ColumnMetaData<V> =
    ColumnMetaData(columnName: string, columnValue: Value<V>, columnType: DbType, columnAlias: Option<string>)

  /** The exceptions thrown by the builder. */
  datatype Error =
    | TableAlreadyInitialized      // SetTable once InitializeTable is set
    | MissingMetaData              // CheckExistsTableName on a null metadata reference
    | MissingTableName             // CheckExistsTableName before any Table call
    | DuplicateKey(key: string)    // ToDictionary over Columns meeting a repeated column name

  /** The prefix of the runtime's message for a repeated dictionary key. */
  const DUPLICATE_KEY_PREFIX: string := "An item with the same key has already been added. Key: "

  /**
   * The message each exception carries: the first three are thrown by the source
   * itself; the duplicate-key text is the .NET dictionary's, ending in the key.
   */
  function Message(e: Error): (m: string)
    ensures m != ""
    ensures e.DuplicateKey? ==> DUPLICATE_KEY_PREFIX <= m && m[|DUPLICATE_KEY_PREFIX|..] == e.key
  {
    match e
    case TableAlreadyInitialized => "Table metadata already initialized"
    case MissingMetaData => "Missing meta data!"
    case MissingTableName => "Missing table name!"
    case DuplicateKey(k) => DUPLICATE_KEY_PREFIX + k
  }

  /** Different exceptions carry different messages: the message identifies the error, key included. */
  lemma MessageIdentifies(e1: Error, e2: Error)
    requires Message(e1) == Message(e2)
    ensures e1 == e2
  {
    if e1.DuplicateKey? || e2.DuplicateKey? {
      assert |Message(e1)| >= |DUPLICATE_KEY_PREFIX| && |Message(e2)| >= |DUPLICATE_KEY_PREFIX|;
      if e1.DuplicateKey? && e2.DuplicateKey? {
        assert e1.key == Message(e1)[|DUPLICATE_KEY_PREFIX|..] == Message(e2)[|DUPLICATE_KEY_PREFIX|..] == e2.key;
      }
    } else {
      assert |Message(e1)| == |Message(e2)|;
      assert Message(e1)[0] == Message(e2)[0] && Message(e1)[8] == Message(e2)[8];
    }
  }

  const DEFAULT_SCHEMA: string := "public"
  const DEFAULT_SCOPE_OPTION: ScopeOption := Required
  const DEFAULT_TRANSACTION_OPTIONS: TransactionOptions := TransactionOptions(ReadCommitted, 30)

  /** Every entry carries the type tag `Object`, whatever type its binder declared. */
  ghost predicate TagsDropped<V>(entries: seq<ColumnMetaData<V>>) {
    forall i :: 0 <= i < |entries| ==> entries[i].columnType == Object
  }

  /** Every entry of `Columns` carries an alias (its own name when none was given). */
  ghost predicate AliasesPresent<V>(entries: seq<ColumnMetaData<V>>) {
    forall i :: 0 <= i < |entries| ==> entries[i].columnAlias.Some?
  }

  /** No entry of `Keys` carries an alias. */
  ghost predicate NoAliases<V>(entries: seq<ColumnMetaData<V>>) {
    forall i :: 0 <= i < |entries| ==> entries[i].columnAlias.None?
  }

  class DataSetMetaData<V> {
    var transactionOptions: TransactionOptions
    var initializeTable: bool
    var isTransaction: bool
    var tranScopeOption: ScopeOption
    var columns: seq<ColumnMetaData<V>>
    var keys: seq<ColumnMetaData<V>>
    var schemaName: Option<string>
    var tableName: Option<string>

    /** Nothing in the source ever sets the table-initialised flag. */
    ghost predicate Valid()
      reads this
    {
      !initializeTable
    }

    /** The state a fresh metadata object starts in. */
    ghost predicate IsDefault()
      reads this
    {
      && columns == [] && keys == []
      && schemaName == None && tableName == None
      && !initializeTable && !isTransaction
      && tranScopeOption == DEFAULT_SCOPE_OPTION
      && transactionOptions == DEFAULT_TRANSACTION_OPTIONS
    }

    constructor ()
      ensures Valid() && IsDefault()
    {
      columns := [];
      keys := [];
      schemaName := None;
      tableName := None;
      initializeTable := false;
      isTransaction := false;
      tranScopeOption := DEFAULT_SCOPE_OPTION;
      transactionOptions := DEFAULT_TRANSACTION_OPTIONS;
    }

    /** Sets schema and table unless the table-initialised flag is set, in which case it throws. */
    method SetTable(schema: string, table: string) returns (r: Outcome<Error>)
      modifies this
      ensures r == if old(initializeTable) then Fail(TableAlreadyInitialized) else Pass
      ensures r.Pass? ==> schemaName == Some(schema) && tableName == Some(table)
      ensures r.Fail? ==> schemaName == old(schemaName) && tableName == old(tableName)
      ensures initializeTable == old(initializeTable)
      ensures columns == old(columns) && keys == old(keys)
      ensures isTransaction == old(isTransaction) && tranScopeOption == old(tranScopeOption)
      ensures transactionOptions == old(transactionOptions)
    {
      if !initializeTable {
        schemaName := Some(schema);
        tableName := Some(table);
        r := Pass;
      } else {
        r := Fail(TableAlreadyInitialized);
      }
    }

    /** Appends a column entry; the type tag stored is always `Object`. */
    method AddColumn(colName: string, colValue: Value<V>, alias: string)
      modifies this`columns
      ensures columns == old(columns) + [ColumnMetaData(colName, colValue, Object, Some(alias))]
    {
      columns := columns + [ColumnMetaData(colName, colValue, Object, Some(alias))];
    }

    /** Appends a key entry with the type tag `Object` and no alias. */
    method AddKey(keyName: string, keyValue: Value<V>)
      modifies this`keys
      ensures keys == old(keys) + [ColumnMetaData(keyName, keyValue, Object, None)]
    {
      keys := keys + [ColumnMetaData(keyName, keyValue, Object, None)];
    }

    /** The typed overload of AddKey: keeps the given tag. Nothing in the builder calls it. */
    method AddTypedKey(keyName: string, keyType: DbType, keyValue: Value<V>)
      modifies this`keys
      ensures keys == old(keys) + [ColumnMetaData(keyName, keyValue, keyType, None)]
    {
      keys := keys + [ColumnMetaData(keyName, keyValue, keyType, None)];
    }
  }
}
