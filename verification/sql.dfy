/**
 * Derivation of SQL text and parameter lists from the ordered `Columns` and
 * `Keys` entries (DataManipulate.cs, GetKeysWhere .. GetColsForSelect and the
 * statement texts of Truncate, Insert, Update, Delete and Select).
 */
module Sql {
  import opened Wrappers
  import opened Metadata
  import opened Text

  /** A named command parameter: name, type tag and opaque value. */
  datatype Parameter<V> = Parameter(parameterName: string, dbType: DbType, value: Value<V>)

  /** What a terminal operation hands to the driver instead of executing it. */
  datatype Statement<V> = Statement(sql: string, parameters: seq<Parameter<V>>)

  /** The line break and indentation the verbatim update text carries before `where`. */
  const UPDATE_WHERE: string := "\n                     where "
  /** The trailing space, line break and indentation the verbatim keyed-select text carries before `where`. */
  const SELECT_WHERE: string := " \n                         where "
  /** The separator of column, value and assignment lists. */
  const LIST_SEP: string := ", "
  /** The separator of key conditions. */
  const AND_SEP: string := " and "

  /** String interpolation of a possibly-null string: null renders as nothing. */
  function Render(s: Option<string>): string {
    s.GetOr("")
  }

  function QualifiedName(schema: Option<string>, table: Option<string>): string {
    Render(schema) + "." + Render(table)
  }

  function KeyParameterName(name: string): string {
    name + "_cnd_p"
  }

  function ColParameterName(name: string): string {
    name + "_p"
  }

  function KeyCondition<V>(k: ColumnMetaData<V>): string {
    k.columnName + " = :" + KeyParameterName(k.columnName)
  }

  function KeyParameter<V>(k: ColumnMetaData<V>): Parameter<V> {
    Parameter(KeyParameterName(k.columnName), k.columnType, k.columnValue)
  }

  function ColParameter<V>(c: ColumnMetaData<V>): Parameter<V> {
    Parameter(ColParameterName(c.columnName), c.columnType, c.columnValue)
  }

  function ColumnName<V>(c: ColumnMetaData<V>): string {
    c.columnName
  }

  function Placeholder<V>(c: ColumnMetaData<V>): string {
    ":" + ColParameterName(c.columnName)
  }

  function Assignment<V>(c: ColumnMetaData<V>): string {
    c.columnName + " = :" + ColParameterName(c.columnName)
  }

  /** GetKeysParameters: one parameter per key, in declaration order, named `<key>_cnd_p`. */
  function KeysParameters<V>(keys: seq<ColumnMetaData<V>>): (ps: seq<Parameter<V>>)
    ensures |ps| == |keys|
    ensures forall i :: 0 <= i < |keys| ==>
      ps[i] == Parameter(keys[i].columnName + "_cnd_p", keys[i].columnType, keys[i].columnValue)
  {
    Map(KeyParameter, keys)
  }

  /** GetColsParameters: one parameter per column, in declaration order, named `<column>_p`. */
  function ColsParameters<V>(cols: seq<ColumnMetaData<V>>): (ps: seq<Parameter<V>>)
    ensures |ps| == |cols|
    ensures forall i :: 0 <= i < |cols| ==>
      ps[i] == Parameter(cols[i].columnName + "_p", cols[i].columnType, cols[i].columnValue)
  {
    Map(ColParameter, cols)
  }

  /** The conditions of the keys predicate: the i-th compares key i with the i-th key parameter. */
  function KeyConditions<V>(keys: seq<ColumnMetaData<V>>): (cs: seq<string>)
    ensures |cs| == |keys|
    ensures forall i :: 0 <= i < |keys| ==>
      cs[i] == keys[i].columnName + " = :" + KeysParameters(keys)[i].parameterName
  {
    Map(KeyCondition, keys)
  }

  /** The column names, in declaration order (aliases play no part). */
  function ColumnNames<V>(cols: seq<ColumnMetaData<V>>): (ns: seq<string>)
    ensures |ns| == |cols|
    ensures forall i :: 0 <= i < |cols| ==> ns[i] == cols[i].columnName
  {
    Map(ColumnName, cols)
  }

  /** The insert placeholders: the i-th is the marker of the i-th column parameter. */
  function Placeholders<V>(cols: seq<ColumnMetaData<V>>): (ps: seq<string>)
    ensures |ps| == |cols|
    ensures forall i :: 0 <= i < |cols| ==> ps[i] == ":" + ColsParameters(cols)[i].parameterName
  {
    Map(Placeholder, cols)
  }

  /** The update assignments: the i-th sets column i from the i-th column parameter. */
  function Assignments<V>(cols: seq<ColumnMetaData<V>>): (asg: seq<string>)
    ensures |asg| == |cols|
    ensures forall i :: 0 <= i < |cols| ==>
      asg[i] == cols[i].columnName + " = :" + ColsParameters(cols)[i].parameterName
  {
    Map(Assignment, cols)
  }

  /** GetKeysWhere: `true` exactly when there are no keys, otherwise the conditions joined by ` and `. */
  function KeysWhere<V>(keys: seq<ColumnMetaData<V>>): (r: string)
    ensures r == "true" <==> keys == []
  {
    if |keys| > 0 then Join(AND_SEP, KeyConditions(keys)) else "true"
  }

  /** GetColsForSelect, and the column list of the insert text. */
  function ColsForSelect<V>(cols: seq<ColumnMetaData<V>>): string {
    Join(LIST_SEP, ColumnNames(cols))
  }

  function ValueList<V>(cols: seq<ColumnMetaData<V>>): string {
    Join(LIST_SEP, Placeholders(cols))
  }

  function SetClause<V>(cols: seq<ColumnMetaData<V>>): string {
    Join(LIST_SEP, Assignments(cols))
  }

  function TruncateSql(schema: Option<string>, table: Option<string>): string {
    "truncate table " + QualifiedName(schema, table) + ";"
  }

  function InsertSql<V>(schema: Option<string>, table: Option<string>, cols: seq<ColumnMetaData<V>>): string {
    "insert into " + QualifiedName(schema, table) + " (" + ColsForSelect(cols) + ") values (" + ValueList(cols) + ")"
  }

  /** GetPreparedUpdateQuery. */
  function UpdateSql<V>(schema: Option<string>, table: Option<string>,
                        cols: seq<ColumnMetaData<V>>, keys: seq<ColumnMetaData<V>>): string {
    "update " + QualifiedName(schema, table) + " set " + SetClause(cols) + UPDATE_WHERE + KeysWhere(keys)
  }

  /** The parameters of Update: all key parameters, then all column parameters, nothing merged. */
  function UpdateParameters<V>(cols: seq<ColumnMetaData<V>>, keys: seq<ColumnMetaData<V>>): (ps: seq<Parameter<V>>)
    ensures |ps| == |keys| + |cols|
    ensures ps[..|keys|] == KeysParameters(keys) && ps[|keys|..] == ColsParameters(cols)
  {
    KeysParameters(keys) + ColsParameters(cols)
  }

  function DeleteSql<V>(schema: Option<string>, table: Option<string>, keys: seq<ColumnMetaData<V>>): string {
    "delete from " + QualifiedName(schema, table) + " where " + KeysWhere(keys)
  }

  function SelectSql<V>(schema: Option<string>, table: Option<string>,
                        cols: seq<ColumnMetaData<V>>, keys: seq<ColumnMetaData<V>>): string {
    "select " + ColsForSelect(cols) + " from " + QualifiedName(schema, table) + SELECT_WHERE + KeysWhere(keys)
  }

  /** The text of Select(query): wrapped when columns were declared, filtered when keys were. */
  function SelectQuerySql<V>(query: string, cols: seq<ColumnMetaData<V>>, keys: seq<ColumnMetaData<V>>): string {
    var projected := if |cols| > 0 then "select " + ColsForSelect(cols) + " from (" + query + ") d" else query;
    if |keys| > 0 then projected + (" where " + KeysWhere(keys) + " ") else projected
  }

  /** The parameters of Select(query): those supplied by the caller, else the key parameters. */
  function SelectQueryParameters<V>(supplied: Option<seq<Parameter<V>>>, keys: seq<ColumnMetaData<V>>): seq<Parameter<V>> {
    match supplied
    case Some(ps) => ps
    case None => [] + KeysParameters(keys)
  }

  // ---------------------------------------------------------------------------
  // Properties

  /** Declaring one more key adds exactly one condition at the end of the predicate. */
  lemma KeysWhereAppend<V>(keys: seq<ColumnMetaData<V>>, k: ColumnMetaData<V>)
    ensures KeysWhere(keys + [k]) ==
      if keys == [] then KeyCondition(k) else KeysWhere(keys) + AND_SEP + KeyCondition(k)
  {
    assert KeyConditions(keys + [k]) == KeyConditions(keys) + [KeyCondition(k)];
    JoinAppend(AND_SEP, KeyConditions(keys), KeyCondition(k));
  }

  /** Two keys give exactly `a = :a_cnd_p and b = :b_cnd_p`, in declaration order. */
  lemma KeysWhereOfTwo<V>(a: ColumnMetaData<V>, b: ColumnMetaData<V>)
    ensures KeysWhere([a, b]) ==
      (a.columnName + " = :" + (a.columnName + "_cnd_p")) + " and " + (b.columnName + " = :" + (b.columnName + "_cnd_p"))
  {
    KeysWhereAppend([], a);
    assert [] + [a] == [a];
    assert KeysWhere([a]) == KeyCondition(a);
    KeysWhereAppend([a], b);
    assert [a] + [b] == [a, b];
    assert KeysWhere([a, b]) == KeyCondition(a) + AND_SEP + KeyCondition(b);
  }

  /** No column name contains a comma, so that `, `-joined lists can be read back. */
  predicate CommaFree<V>(cols: seq<ColumnMetaData<V>>) {
    forall i :: 0 <= i < |cols| ==> ',' !in cols[i].columnName
  }

  /** The value list of the insert text reads back as one marker per column parameter, in order. */
  lemma ValueListReadsBack<V>(cols: seq<ColumnMetaData<V>>)
    requires |cols| > 0 && CommaFree(cols)
    ensures Split(ValueList(cols), LIST_SEP) == Placeholders(cols)
  {
    forall i | 0 <= i < |cols|
      ensures LIST_SEP[0] !in Placeholders(cols)[i]
    {
      assert Placeholders(cols)[i] == [':'] + cols[i].columnName + ['_', 'p'];
    }
    SplitJoin(LIST_SEP, Placeholders(cols));
  }

  /**
   * Insert: reading the column list and the value list back out of the text gives
   * lists of the same length and order, the i-th value being the marker of the
   * i-th column's parameter.
   */
  lemma InsertListsAlign<V>(cols: seq<ColumnMetaData<V>>)
    requires |cols| > 0 && CommaFree(cols)
    ensures |Split(ColsForSelect(cols), LIST_SEP)| == |Split(ValueList(cols), LIST_SEP)| == |cols|
    ensures forall i :: 0 <= i < |cols| ==>
      Split(ValueList(cols), LIST_SEP)[i] == ":" + Split(ColsForSelect(cols), LIST_SEP)[i] + "_p"
    ensures forall i :: 0 <= i < |cols| ==>
      Split(ValueList(cols), LIST_SEP)[i] == ":" + ColsParameters(cols)[i].parameterName
  {
    SelectProjectsNames(cols);
    ValueListReadsBack(cols);
  }

  /** Update: reading the SET clause back gives one `c = :c_p` assignment per column, in order. */
  lemma SetClauseAlign<V>(cols: seq<ColumnMetaData<V>>)
    requires |cols| > 0 && CommaFree(cols)
    ensures var setItems := Split(SetClause(cols), LIST_SEP);
            && |setItems| == |cols|
            && forall i :: 0 <= i < |cols| ==>
                 setItems[i] == cols[i].columnName + " = :" + ColsParameters(cols)[i].parameterName
  {
    forall i | 0 <= i < |cols|
      ensures LIST_SEP[0] !in Assignments(cols)[i]
    {
      assert Assignments(cols)[i] == cols[i].columnName + [' ', '=', ' ', ':'] + cols[i].columnName + ['_', 'p'];
    }
    SplitJoin(LIST_SEP, Assignments(cols));
  }

  /** The projection of a select lists the declared column names, never their aliases. */
  lemma SelectProjectsNames<V>(cols: seq<ColumnMetaData<V>>)
    requires |cols| > 0 && CommaFree(cols)
    ensures var projected := Split(ColsForSelect(cols), LIST_SEP);
            |projected| == |cols| && forall i :: 0 <= i < |cols| ==> projected[i] == cols[i].columnName
  {
    SplitJoin(LIST_SEP, ColumnNames(cols));
  }

  /** Entries with the same names in the same order, whatever their values, type tags and aliases. */
  predicate SameNames<V>(a: seq<ColumnMetaData<V>>, b: seq<ColumnMetaData<V>>) {
    |a| == |b| && forall i :: 0 <= i < |a| ==> a[i].columnName == b[i].columnName
  }

  /** Values, type tags and aliases never reach the SQL text: only the names do. */
  lemma TextDependsOnlyOnNames<V>(schema: Option<string>, table: Option<string>, query: string,
                                  cols1: seq<ColumnMetaData<V>>, keys1: seq<ColumnMetaData<V>>,
                                  cols2: seq<ColumnMetaData<V>>, keys2: seq<ColumnMetaData<V>>)
    requires SameNames(cols1, cols2) && SameNames(keys1, keys2)
    ensures InsertSql(schema, table, cols1) == InsertSql(schema, table, cols2)
    ensures UpdateSql(schema, table, cols1, keys1) == UpdateSql(schema, table, cols2, keys2)
    ensures DeleteSql(schema, table, keys1) == DeleteSql(schema, table, keys2)
    ensures SelectSql(schema, table, cols1, keys1) == SelectSql(schema, table, cols2, keys2)
    ensures SelectQuerySql(query, cols1, keys1) == SelectQuerySql(query, cols2, keys2)
  {
    SameNamesSameLists(cols1, cols2);
    SameNamesSameLists(keys1, keys2);
  }

  /** Every list built from entries depends only on their names. */
  lemma SameNamesSameLists<V>(a: seq<ColumnMetaData<V>>, b: seq<ColumnMetaData<V>>)
    requires SameNames(a, b)
    ensures ColumnNames(a) == ColumnNames(b) && Placeholders(a) == Placeholders(b)
    ensures Assignments(a) == Assignments(b) && KeyConditions(a) == KeyConditions(b)
  {
  }

  /** A name declared both as key and as column yields two distinct parameters. */
  lemma KeyAndColumnParametersDiffer(name: string)
    ensures KeyParameterName(name) != ColParameterName(name)
  {
  }

  /** Different names can still meet: key `n` and column `n_cnd` share the parameter name `n_cnd_p`. */
  lemma KeyAndColumnParametersCanCollide(name: string)
    ensures KeyParameterName(name) == ColParameterName(name + "_cnd")
  {
  }

  /** With no keys, Update, Delete and the keyed Select apply to the whole table. */
  lemma NoKeysMatchAll<V>(schema: Option<string>, table: Option<string>, cols: seq<ColumnMetaData<V>>)
    ensures UpdateSql(schema, table, cols, []) ==
      "update " + QualifiedName(schema, table) + " set " + SetClause(cols) + UPDATE_WHERE + "true"
    ensures DeleteSql<V>(schema, table, []) == "delete from " + QualifiedName(schema, table) + " where true"
    ensures SelectSql(schema, table, cols, []) ==
      "select " + ColsForSelect(cols) + " from " + QualifiedName(schema, table) + SELECT_WHERE + "true"
    ensures UpdateParameters(cols, []) == ColsParameters(cols)
  {
  }

  /**
   * Select(query): the caller's query is kept verbatim, passed through untouched when
   * nothing was declared, wrapped as a subquery `d` when columns were, and followed
   * by ` where <predicate> ` when keys were.
   */
  lemma SelectQueryShape<V>(query: string, cols: seq<ColumnMetaData<V>>, keys: seq<ColumnMetaData<V>>)
    ensures cols == [] && keys == [] ==> SelectQuerySql(query, cols, keys) == query
    ensures var prefix := if cols == [] then "" else "select " + ColsForSelect(cols) + " from (";
            var suffix := (if cols == [] then "" else ") d") + (if keys == [] then "" else " where " + KeysWhere(keys) + " ");
            SelectQuerySql(query, cols, keys) == prefix + query + suffix
  {
    var filter := if keys == [] then "" else " where " + KeysWhere(keys) + " ";
    if cols == [] {
      assert "" + query == query;
      assert "" + filter == filter;
      if keys == [] {
        assert query + "" == query;
      }
    } else {
      var head := "select " + ColsForSelect(cols) + " from (" + query;
      assert head + (") d" + filter) == (head + ") d") + filter;
      if keys == [] {
        assert (head + ") d") + "" == head + ") d";
      }
    }
  }

  /** Parameters supplied to Select(query) replace the key parameters; otherwise the key parameters are used. */
  lemma SelectQueryParametersChoice<V>(supplied: Option<seq<Parameter<V>>>, keys: seq<ColumnMetaData<V>>)
    ensures supplied.Some? ==> SelectQueryParameters(supplied, keys) == supplied.value
    ensures supplied.None? ==> SelectQueryParameters(supplied, keys) == KeysParameters(keys)
  {
  }
}
