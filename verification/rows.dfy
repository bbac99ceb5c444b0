/**
 * The read path of DataManipulate.cs (SqlRead): the alias dictionary built from
 * `Columns`, and the renaming of each result row into an ordered record.
 */
module RowMapping {
  import opened Wrappers
  import opened Metadata

  /** One named value of a result row or of a record; `Null` is the database null. */
  datatype Field<V> = Field(name: string, value: Value<V>)

  /** The fields of one result row, in column order; names may repeat. */
  type Row<V> = seq<Field<V>>

  /** An ordered dictionary (the ExpandoObject): fields in first-insertion order, names unique. */
  type Record<V> = seq<Field<V>>

  /** The names of the fields, in order. */
  function Names<V>(fs: seq<Field<V>>): (ns: seq<string>)
    ensures |ns| == |fs| && forall i :: 0 <= i < |fs| ==> ns[i] == fs[i].name
  {
    if fs == [] then [] else [fs[0].name] + Names(fs[1..])
  }

  ghost predicate UniqueNames<V>(rec: Record<V>) {
    forall i, j :: 0 <= i < j < |rec| ==> rec[i].name != rec[j].name
  }

  /** The value stored under `k`, if any (the first field so named). */
  function Lookup<V>(rec: Record<V>, k: string): Option<Value<V>> {
    if rec == [] then None
    else if rec[0].name == k then Some(rec[0].value)
    else Lookup(rec[1..], k)
  }

  /**
   * `dict[k] = v` on the ordered dictionary: overwrites the value in place when
   * `k` is present, otherwise adds `k` at the end.
   */
  function Assign<V>(rec: Record<V>, k: string, v: Value<V>): (r: Record<V>)
    ensures Names(r) == if k in Names(rec) then Names(rec) else Names(rec) + [k]
  {
    if rec == [] then [Field(k, v)]
    else if rec[0].name == k then
      var r := [Field(k, v)] + rec[1..];
      assert r[1..] == rec[1..];
      r
    else
      var tail := Assign(rec[1..], k, v);
      var r := [rec[0]] + tail;
      assert r[1..] == tail;
      r
  }

  /** After assigning `v` under `k`, `k` holds `v`. */
  lemma {:induction false} AssignLookup<V>(rec: Record<V>, k: string, v: Value<V>)
    ensures Lookup(Assign(rec, k, v), k) == Some(v)
  {
    if rec != [] && rec[0].name != k {
      AssignLookup(rec[1..], k, v);
      assert ([rec[0]] + Assign(rec[1..], k, v))[1..] == Assign(rec[1..], k, v);
    }
  }

  /** Assigning under `k` leaves every other name's value as it was. */
  lemma {:induction false} AssignOthers<V>(rec: Record<V>, k: string, v: Value<V>, j: string)
    requires j != k
    ensures Lookup(Assign(rec, k, v), j) == Lookup(rec, j)
  {
    if rec != [] && rec[0].name != k {
      AssignOthers(rec[1..], k, v, j);
      assert ([rec[0]] + Assign(rec[1..], k, v))[1..] == Assign(rec[1..], k, v);
    } else if rec != [] {
      assert ([Field(k, v)] + rec[1..])[1..] == rec[1..];
    }
  }

  /** Assigning keeps every name of the dictionary unique. */
  lemma AssignKeepsUnique<V>(rec: Record<V>, k: string, v: Value<V>)
    requires UniqueNames(rec)
    ensures UniqueNames(Assign(rec, k, v))
  {
    var r := Assign(rec, k, v);
    if k !in Names(rec) {
      assert Names(r) == Names(rec) + [k];
      forall i, j | 0 <= i < j < |r| ensures r[i].name != r[j].name {
        assert Names(r)[i] == r[i].name && Names(r)[j] == r[j].name;
        if j == |rec| {
          assert Names(rec)[i] == r[i].name;
        } else {
          assert Names(rec)[i] == r[i].name && Names(rec)[j] == r[j].name;
        }
      }
    } else {
      forall i, j | 0 <= i < j < |r| ensures r[i].name != r[j].name {
        assert Names(r)[i] == r[i].name && Names(r)[j] == r[j].name;
        assert Names(rec)[i] == rec[i].name && Names(rec)[j] == rec[j].name;
      }
    }
  }

  /** No column name is declared twice. */
  ghost predicate DistinctNames<V>(cols: seq<ColumnMetaData<V>>) {
    forall i, j :: 0 <= i < j < |cols| ==> cols[i].columnName != cols[j].columnName
  }

  /**
   * The name a declared column is read back under. Every entry of `Columns` carries
   * an alias (the column binder stores `alias ?? name`), so the fallback is never taken.
   */
  function AliasOf<V>(c: ColumnMetaData<V>): string {
    c.columnAlias.GetOr(c.columnName)
  }

  /** The names of the declared columns, as a set. */
  ghost function NameSet<V>(cols: seq<ColumnMetaData<V>>): set<string> {
    set i | 0 <= i < |cols| :: cols[i].columnName
  }

  /** Growing the columns by one adds one name, and keeps them distinct iff that name is new. */
  lemma NamesSnoc<V>(cols: seq<ColumnMetaData<V>>)
    requires cols != []
    ensures NameSet(cols) == NameSet(cols[..|cols| - 1]) + {cols[|cols| - 1].columnName}
    ensures DistinctNames(cols) <==>
      DistinctNames(cols[..|cols| - 1]) && cols[|cols| - 1].columnName !in NameSet(cols[..|cols| - 1])
  {
    var init := cols[..|cols| - 1];
    var c := cols[|cols| - 1];
    forall x | x in NameSet(cols) ensures x in NameSet(init) + {c.columnName} {
      var i :| 0 <= i < |cols| && cols[i].columnName == x;
      if i < |init| { assert init[i] == cols[i]; }
    }
    forall x | x in NameSet(init) ensures x in NameSet(cols) {
      var i :| 0 <= i < |init| && init[i].columnName == x;
      assert cols[i] == init[i];
    }
    assert cols[|cols| - 1].columnName in NameSet(cols);
    if c.columnName in NameSet(init) {
      var i :| 0 <= i < |init| && init[i].columnName == c.columnName;
      assert cols[i].columnName == cols[|cols| - 1].columnName;
    }
    if DistinctNames(init) && c.columnName !in NameSet(init) {
      forall i, j | 0 <= i < j < |cols| ensures cols[i].columnName != cols[j].columnName {
        assert init[i] == cols[i];
        if j < |init| { assert init[j] == cols[j]; } else { assert init[i].columnName in NameSet(init); }
      }
    }
    if DistinctNames(cols) {
      forall i, j | 0 <= i < j < |init| ensures init[i].columnName != init[j].columnName {
        assert init[i] == cols[i] && init[j] == cols[j];
      }
    }
  }

  /**
   * `Columns.ToDictionary(name, alias)`: fails on the first column whose name was
   * already seen, otherwise has exactly the declared names as keys.
   */
  function AliasDict<V>(cols: seq<ColumnMetaData<V>>): (r: Result<map<string, string>, Error>)
    ensures r.Success? <==> DistinctNames(cols)
    ensures r.Success? ==> r.value.Keys == NameSet(cols)
    ensures r.Failure? ==> r.error.DuplicateKey?
    decreases |cols|
  {
    if cols == [] then Success(map[])
    else
      var init := cols[..|cols| - 1];
      var c := cols[|cols| - 1];
      NamesSnoc(cols);
      match AliasDict(init)
      case Failure(e) => Failure(e)
      case Success(d) =>
        if c.columnName in d then Failure(DuplicateKey(c.columnName))
        else Success(d[c.columnName := AliasOf(c)])
  }

  /** On success every declared name maps to its column's alias. */
  lemma {:induction false} AliasDictValues<V>(cols: seq<ColumnMetaData<V>>)
    requires DistinctNames(cols)
    ensures forall i :: 0 <= i < |cols| ==> AliasDict(cols).value[cols[i].columnName] == AliasOf(cols[i])
    decreases |cols|
  {
    if cols != [] {
      var init := cols[..|cols| - 1];
      var c := cols[|cols| - 1];
      assert forall i :: 0 <= i < |init| ==> init[i] == cols[i];
      assert DistinctNames(init);
      AliasDictValues(init);
      var d := AliasDict(init).value;
      var r := d[c.columnName := AliasOf(c)];
      assert AliasDict(cols).value == r;
      forall i | 0 <= i < |cols| ensures r[cols[i].columnName] == AliasOf(cols[i]) {
        if i < |init| {
          assert cols[i].columnName != c.columnName;
          assert d[init[i].columnName] == AliasOf(init[i]);
        }
      }
    }
  }

  /** On failure the key reported is a name declared at two positions. */
  lemma {:induction false} AliasDictDuplicate<V>(cols: seq<ColumnMetaData<V>>)
    requires !DistinctNames(cols)
    ensures exists i, j :: 0 <= i < j < |cols| && cols[i].columnName == cols[j].columnName == AliasDict(cols).error.key
    decreases |cols|
  {
    var init := cols[..|cols| - 1];
    var c := cols[|cols| - 1];
    NamesSnoc(cols);
    if !DistinctNames(init) {
      AliasDictDuplicate(init);
      var i, j :| 0 <= i < j < |init| && init[i].columnName == init[j].columnName == AliasDict(init).error.key;
      assert cols[i] == init[i] && cols[j] == init[j];
    } else {
      var i :| 0 <= i < |init| && init[i].columnName == c.columnName;
      assert cols[i] == init[i];
      assert cols[i].columnName == cols[|cols| - 1].columnName == AliasDict(cols).error.key;
    }
  }

  /**
   * The key reported is the FIRST name that repeats: the column at `j` is the
   * earliest whose name an earlier column already has, so the columns before it
   * are distinct.
   */
  lemma {:induction false} AliasDictFirstRepeat<V>(cols: seq<ColumnMetaData<V>>)
    requires !DistinctNames(cols)
    ensures exists j :: 0 <= j < |cols| && cols[j].columnName == AliasDict(cols).error.key
                        && DistinctNames(cols[..j]) && cols[j].columnName in NameSet(cols[..j])
    decreases |cols|
  {
    var init := cols[..|cols| - 1];
    if !DistinctNames(init) {
      AliasDictFirstRepeat(init);
      assert AliasDict(cols) == AliasDict(init);
      var k :| 0 <= k < |init| && init[k].columnName == AliasDict(init).error.key
               && DistinctNames(init[..k]) && init[k].columnName in NameSet(init[..k]);
      assert cols[..k] == init[..k] && cols[k] == init[k];
      assert cols[k].columnName == AliasDict(cols).error.key
             && DistinctNames(cols[..k]) && cols[k].columnName in NameSet(cols[..k]);
    } else {
      NamesSnoc(cols);
      var j := |cols| - 1;
      assert cols[..j] == init;
      assert AliasDict(cols) == Failure(DuplicateKey(cols[j].columnName));
      assert cols[j].columnName in NameSet(cols[..j]);
    }
  }

  /** A result field is stored under its column's alias when it is a declared column, else under its own name. */
  function FinalName(dict: map<string, string>, key: string): string {
    if key in dict then dict[key] else key
  }

  /** The record one row becomes: fields renamed and assigned one after another, left to right. */
  function MapRow<V>(dict: map<string, string>, row: Row<V>): (rec: Record<V>)
    ensures UniqueNames(rec)
    decreases |row|
  {
    if row == [] then []
    else
      var last := row[|row| - 1];
      AssignKeepsUnique(MapRow(dict, row[..|row| - 1]), FinalName(dict, last.name), last.value);
      Assign(MapRow(dict, row[..|row| - 1]), FinalName(dict, last.name), last.value)
  }

  /** The records a sequence of rows becomes: one per row, in row order. */
  function MapRows<V>(dict: map<string, string>, rows: seq<Row<V>>): (recs: seq<Record<V>>)
    ensures |recs| == |rows|
    ensures forall i :: 0 <= i < |rows| ==> recs[i] == MapRow(dict, rows[i])
    decreases |rows|
  {
    if rows == [] then []
    else
      MapRows(dict, rows[..|rows| - 1]) + [MapRow(dict, rows[|rows| - 1])]
  }

  /** Reference reading: the value of the LAST field of the row whose final name is `n`. */
  function LastValue<V>(dict: map<string, string>, row: Row<V>, n: string): Option<Value<V>>
    decreases |row|
  {
    if row == [] then None
    else if FinalName(dict, row[|row| - 1].name) == n then Some(row[|row| - 1].value)
    else LastValue(dict, row[..|row| - 1], n)
  }

  /** Each name of the record holds the value of the last row field renamed to it; a later field overwrites an earlier one. */
  lemma {:induction false} MapRowLookup<V>(dict: map<string, string>, row: Row<V>, n: string)
    ensures Lookup(MapRow(dict, row), n) == LastValue(dict, row, n)
    decreases |row|
  {
    if row != [] {
      MapRowLookup(dict, row[..|row| - 1], n);
      var last := row[|row| - 1];
      if FinalName(dict, last.name) == n {
        AssignLookup(MapRow(dict, row[..|row| - 1]), n, last.value);
      } else {
        AssignOthers(MapRow(dict, row[..|row| - 1]), FinalName(dict, last.name), last.value, n);
      }
    }
  }

  /** Some field of the row is renamed to `n`. */
  ghost predicate Produces<V>(dict: map<string, string>, row: Row<V>, n: string) {
    exists i :: 0 <= i < |row| && FinalName(dict, row[i].name) == n
  }

  /** A row produces `n` when its prefix does or its last field is renamed to `n`. */
  lemma ProducesSnoc<V>(dict: map<string, string>, row: Row<V>, n: string)
    requires row != []
    ensures Produces(dict, row, n) <==>
      Produces(dict, row[..|row| - 1], n) || FinalName(dict, row[|row| - 1].name) == n
  {
    var init := row[..|row| - 1];
    if Produces(dict, init, n) {
      var i :| 0 <= i < |init| && FinalName(dict, init[i].name) == n;
      assert row[i] == init[i];
    }
    if Produces(dict, row, n) {
      var i :| 0 <= i < |row| && FinalName(dict, row[i].name) == n;
      if i < |init| {
        assert init[i] == row[i];
      }
    }
  }

  /** The record holds exactly the final names of the row's fields (each once, by MapRow's contract). */
  lemma {:induction false} MapRowNames<V>(dict: map<string, string>, row: Row<V>, n: string)
    ensures n in Names(MapRow(dict, row)) <==> Produces(dict, row, n)
    decreases |row|
  {
    if row != [] {
      var init := row[..|row| - 1];
      var last := row[|row| - 1];
      MapRowNames(dict, init, n);
      ProducesSnoc(dict, row, n);
      var prev := MapRow(dict, init);
      var fn := FinalName(dict, last.name);
      assert MapRow(dict, row) == Assign(prev, fn, last.value);
      assert Names(Assign(prev, fn, last.value)) == if fn in Names(prev) then Names(prev) else Names(prev) + [fn];
    }
  }

  /** The name each field of the row is stored under, in row order. */
  function FinalNames<V>(dict: map<string, string>, row: Row<V>): (ns: seq<string>)
    ensures |ns| == |row| && forall i :: 0 <= i < |row| ==> ns[i] == FinalName(dict, row[i].name)
    decreases |row|
  {
    if row == [] then []
    else
      var init := row[..|row| - 1];
      assert forall i :: 0 <= i < |init| ==> init[i] == row[i];
      FinalNames(dict, init) + [FinalName(dict, row[|row| - 1].name)]
  }

  /** The names in order of first occurrence, each once. */
  function Dedup(ns: seq<string>): seq<string>
    decreases |ns|
  {
    if ns == [] then []
    else
      var init := ns[..|ns| - 1];
      var last := ns[|ns| - 1];
      if last in init then Dedup(init) else Dedup(init) + [last]
  }

  /** Dedup keeps exactly the names it is given. */
  lemma {:induction false} DedupMembers(ns: seq<string>, x: string)
    ensures x in Dedup(ns) <==> x in ns
    decreases |ns|
  {
    if ns != [] {
      var init := ns[..|ns| - 1];
      DedupMembers(init, x);
      assert ns == init + [ns[|ns| - 1]];
    }
  }

  /**
   * The record lists its names in the order the row first produced them: a later
   * field renamed to an existing name overwrites in place and does not move it.
   */
  lemma {:induction false} MapRowOrder<V>(dict: map<string, string>, row: Row<V>)
    ensures Names(MapRow(dict, row)) == Dedup(FinalNames(dict, row))
    decreases |row|
  {
    if row != [] {
      var init := row[..|row| - 1];
      var last := row[|row| - 1];
      var fn := FinalName(dict, last.name);
      MapRowOrder(dict, init);
      DedupMembers(FinalNames(dict, init), fn);
      var ns := FinalNames(dict, row);
      assert ns[..|ns| - 1] == FinalNames(dict, init) && ns[|ns| - 1] == fn;
      assert MapRow(dict, row) == Assign(MapRow(dict, init), fn, last.value);
    }
  }

  /** A row with a declared column `x` aliased to `y` and a declared `id`, aliased to itself, becomes `{id, y}`. */
  lemma AliasedReadExample()
    ensures var cols: seq<ColumnMetaData<string>> := [ColumnMetaData("id", Null, Object, Some("id")), ColumnMetaData("x", Null, Object, Some("y"))];
            var row: Row<string> := [Field("id", Of("1")), Field("x", Of("v"))];
            AliasDict(cols).Success? &&
            MapRow(AliasDict(cols).value, row) == [Field("id", Of("1")), Field("y", Of("v"))]
  {
    var cols: seq<ColumnMetaData<string>> := [ColumnMetaData("id", Null, Object, Some("id")), ColumnMetaData("x", Null, Object, Some("y"))];
    var row: Row<string> := [Field("id", Of("1")), Field("x", Of("v"))];
    assert cols[..1] == [cols[0]] && cols[..1][..0] == [];
    var d := AliasDict(cols).value;
    assert d == map["id" := "id", "x" := "y"];
    assert row[..1] == [row[0]] && row[..1][..0] == [];
    assert MapRow(d, row[..1]) == [Field("id", Of("1"))];
    assert FinalName(d, "x") == "y";
    assert Assign([Field("id", Of("1"))], "y", Of("v")) == [Field("id", Of("1")), Field("y", Of("v"))];
  }
}
