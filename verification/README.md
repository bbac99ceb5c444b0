# DataManipulate statement builder — a Dafny model

This project models the statement-building engine of `DataManipulate.cs`, a fluent
builder over an Npgsql connection. A caller names a table, declares columns and keys
through short-lived binder objects, optionally switches on a transaction, and then
asks for a `truncate`, `insert`, `update`, `delete` or `select`. The builder turns
the accumulated metadata into SQL text with `:name` parameter markers plus a
parameter list. For reads, it renames each result field through the column aliases.

The model keeps the source's own shape:

- `metadata.dfy` (module `Metadata`): the entries (`ColumnMetaData`), the type tags,
  the transaction settings, the exceptions, and the mutable `DataSetMetaData` class.
  Its ordered `Columns`/`Keys` lists are `seq` fields that its methods reassign.
- `dataset.dfy` (module `DataManipulate`): the binder classes `SpecificColumn` and
  `SpecificKey`, and the façade class `SpecificDataSet`. Their methods update the
  metadata in place. The terminal operations return the `Statement` (SQL text and
  parameters) instead of executing it. `SqlRead` is the source's nested row/field
  loop, written as `while`/`for` loops proved against the `MapRow` and `MapRows` functions.
- `sql.dfy` (module `Sql`): the LINQ `Select` + `string.Join` expressions that derive
  SQL text and parameter lists, written as functions over the two sequences, with
  lemmas about them.
- `rows.dfy` (module `RowMapping`): the alias dictionary, the ordered record
  (`ExpandoObject`), the per-row renaming, and a reference "last field wins" reading.
- `text.dfy` (module `Text`): `Enumerable.Select`, `string.Join`, and a splitter with
  the round trip `Split(Join(sep, parts)) == parts` for a non-empty list of parts, none
  containing the separator's first character. The round trip is how the list
  lemmas read a column list back out of the SQL text.
- `scenarios.dfy` (module `Scenarios`): fluent call chains, as a caller writes them,
  with what they are proved to produce.
- `wrappers.dfy` (module `Wrappers`): `Option` (C# `null`), `Result` and `Outcome`
  (exceptions).

Values are an opaque type parameter `V`. A value is either `Null` (a C# `null` or a
database `DBNull`) or `Of(v)`.

On these points the code behaves differently from what its API suggests, and the
model follows the code:

- A second `Table` call does not fail. `InitializeTable` is never set to true, so
  `SetTable` overwrites the table (last write wins).
- `Insert` never checks that a table was set. Without one it emits
  `insert into . (...)`, because a null string interpolates as nothing.
- Declared type tags are never stored. Both `AddColumn` and the key binder's `Set`
  store `DbType.Object`.
- The typed `WithKeys(name, type)` returns a column binder, so it declares a column
  and not a key.
- The `?? "true"` in the update text can never apply, because `GetKeysWhere` never
  returns null. Dafny strings cannot be null, so the model leaves it out.
- The whitespace in the verbatim strings is reproduced exactly, as the constants
  `UPDATE_WHERE` and `SELECT_WHERE`. The update text has a newline and 21 spaces
  before `where`. The keyed select has a space, a newline and 25 spaces.

## Model

| member | source | states |
|---|---|---|
| `Metadata.Message` | DataManipulate.cs:109 | every exception carries a non-empty message; the three texts of lines 109, 428 and 429 are the source's, and the duplicate-key message ends in the offending key |
| `Metadata.MessageIdentifies` | DataManipulate.cs:426-430 | distinct errors carry distinct messages, so a caller can tell the failures apart by text |
| `Metadata.DataSetMetaData.constructor` | DataManipulate.cs:112-124 | a new metadata object has empty columns and keys, no schema or table, the table flag off, no transaction, scope `Required`, `ReadCommitted`, 30 s |
| `Metadata.DataSetMetaData.SetTable` | DataManipulate.cs:101-110 | fails (and changes nothing) exactly when the table flag is set; otherwise overwrites schema and table; nothing else changes |
| `Metadata.DataSetMetaData.AddColumn` | DataManipulate.cs:126-129 | appends exactly one column entry, tagged `Object`, with the given alias |
| `Metadata.DataSetMetaData.AddKey` | DataManipulate.cs:131-134 | appends exactly one key entry, tagged `Object`, with no alias |
| `Metadata.DataSetMetaData.AddTypedKey` | DataManipulate.cs:136-139 | the unused typed overload appends one key entry that keeps its tag |
| `Text.Map` | DataManipulate.cs:192-194 | `Enumerable.Select` keeps length and order and applies the selector to each element |
| `Text.Join` | DataManipulate.cs:195 | `string.Join` of no parts is empty; otherwise it begins with the first part |
| `Text.JoinAppend` | DataManipulate.cs:195 | joining one more part extends the text by exactly the separator and that part |
| `Text.SplitJoin` | DataManipulate.cs:278-280 | splitting a joined text at the separator gives back the parts, when no part contains the separator's first character |
| `Sql.KeysParameters` | DataManipulate.cs:202-208 | one parameter per key, in key order, named `<key>_cnd_p`, with that key's tag and value |
| `Sql.ColsParameters` | DataManipulate.cs:210-216 | one parameter per column, in column order, named `<column>_p`, with that column's tag and value |
| `Sql.KeyConditions` | DataManipulate.cs:192-194 | the i-th condition compares key i with the i-th key parameter's marker |
| `Sql.ColumnNames` | DataManipulate.cs:387-391 | the projected names are the column names in order; aliases take no part |
| `Sql.Placeholders` | DataManipulate.cs:279 | the i-th insert placeholder is the marker of the i-th column parameter |
| `Sql.Assignments` | DataManipulate.cs:220-221 | the i-th update assignment sets column i from the i-th column parameter |
| `Sql.Render` | DataManipulate.cs:183 | definition: a null schema or table name interpolates as the empty string (used by `Scenarios.InsertWithoutTable`) |
| `Sql.QualifiedName` | DataManipulate.cs:183 | definition: `<schema>.<table>` as interpolated at 183, 281, 318 and 397; its null case is stated by `Scenarios.InsertWithoutTable` |
| `Sql.KeyParameterName` | DataManipulate.cs:206 | definition: a key's parameter is named `<key>_cnd_p`; `Sql.KeysParameters` and `Sql.KeyAndColumnParametersDiffer` state its use |
| `Sql.ColParameterName` | DataManipulate.cs:214 | definition: a column's parameter is named `<column>_p`; `Sql.ColsParameters` and `Sql.KeyAndColumnParametersDiffer` state its use |
| `Sql.KeyCondition` | DataManipulate.cs:194 | definition of the per-key selector `<key> = :<key>_cnd_p`; `Sql.KeyConditions` and `Sql.KeysWhereOfTwo` state its use |
| `Sql.KeyParameter` | DataManipulate.cs:206 | definition of the per-key parameter selector; `Sql.KeysParameters` states it for every key |
| `Sql.ColParameter` | DataManipulate.cs:214 | definition of the per-column parameter selector; `Sql.ColsParameters` states it for every column |
| `Sql.ColumnName` | DataManipulate.cs:277 | definition of the name selector of 277 and 390; `Sql.ColumnNames` states it for every column |
| `Sql.Placeholder` | DataManipulate.cs:279 | definition of the value-marker selector `:<column>_p`; `Sql.Placeholders` states it for every column |
| `Sql.Assignment` | DataManipulate.cs:221 | definition of the assignment selector `<column> = :<column>_p`; `Sql.Assignments` states it for every column |
| `Sql.ValueList` | DataManipulate.cs:279-280 | definition of the insert value list `strValues`; `Sql.ValueListReadsBack` and `Sql.InsertListsAlign` read it back |
| `Sql.SetClause` | DataManipulate.cs:220-222 | definition of the update SET clause `strCols`; `Sql.SetClauseAlign` reads it back |
| `Sql.ColsForSelect` | DataManipulate.cs:387-392 | definition of `GetColsForSelect`: the column names joined by `, `; `Sql.SelectProjectsNames` reads it back as the names, never the aliases |
| `Sql.TruncateSql` | DataManipulate.cs:183 | definition of the truncate text; `SpecificDataSet.Truncate` states when it is produced |
| `Sql.InsertSql` | DataManipulate.cs:276-281 | definition of the insert text; `Sql.InsertListsAlign` and `Scenarios.InsertOne` state its lists and exact form |
| `Sql.UpdateSql` | DataManipulate.cs:218-226 | definition of `GetPreparedUpdateQuery`; `Sql.SetClauseAlign`, `Sql.NoKeysMatchAll` and `Scenarios.UpdateOne` state its SET clause, its `where true` case and its exact form |
| `Sql.DeleteSql` | DataManipulate.cs:318 | definition of the delete text; `Sql.NoKeysMatchAll` and `Scenarios.DeleteOne` state its `where true` case and exact form |
| `Sql.SelectSql` | DataManipulate.cs:397-398 | definition of the keyed select text; `Sql.SelectProjectsNames` and `Sql.NoKeysMatchAll` state its projection and its `where true` case |
| `Sql.SelectQuerySql` | DataManipulate.cs:405-406 | definition of the `Select(query)` text; `Sql.SelectQueryShape` states that the query appears verbatim between declaration-only prefix and suffix |
| `Sql.SelectQueryParameters` | DataManipulate.cs:407 | definition of the `parameters ?? key parameters` choice; `Sql.SelectQueryParametersChoice` states both cases |
| `Sql.KeysWhere` | DataManipulate.cs:188-200 | the keys predicate is exactly `true` if and only if there are no keys |
| `Sql.UpdateParameters` | DataManipulate.cs:305 | the update parameters are all key parameters followed by all column parameters, none merged |
| `Sql.KeysWhereAppend` | DataManipulate.cs:188-200 | declaring one more key appends exactly ` and <key> = :<key>_cnd_p`; the first key replaces `true` with its condition |
| `Sql.KeysWhereOfTwo` | DataManipulate.cs:192-195 | keys `[a, b]` give exactly `a = :a_cnd_p and b = :b_cnd_p` |
| `Sql.ValueListReadsBack` | DataManipulate.cs:279-280 | the insert value list splits back into one marker per column, in order; for a non-empty column list whose names contain no comma |
| `Sql.InsertListsAlign` | DataManipulate.cs:276-282 | the insert column list and value list read back with equal length and matching order; value i is `:<column i>_p`, the marker of parameter i; for a non-empty column list whose names contain no comma |
| `Sql.SetClauseAlign` | DataManipulate.cs:220-223 | the update SET clause reads back as one `c = :c_p` per column, in order, each naming its own parameter; for a non-empty column list whose names contain no comma |
| `Sql.SelectProjectsNames` | DataManipulate.cs:387-392 | the select projection reads back as the declared column names, never their aliases; for a non-empty column list whose names contain no comma |
| `Sql.SameNamesSameLists` | DataManipulate.cs:192-194 | entries with the same names give the same projection, placeholders, assignments and key conditions |
| `Sql.TextDependsOnlyOnNames` | DataManipulate.cs:218-226 | two declarations with the same names give the same insert, update, delete, keyed-select and raw-select text, whatever their values, tags and aliases |
| `Sql.KeyAndColumnParametersDiffer` | DataManipulate.cs:206-214 | a name declared as both key and column yields two distinct parameter names |
| `Sql.KeyAndColumnParametersCanCollide` | DataManipulate.cs:206-214 | key `n` and column `n_cnd` share the parameter name `n_cnd_p` |
| `Sql.NoKeysMatchAll` | DataManipulate.cs:188-200 | with no keys, update, delete and keyed select end in `where true`, and update binds only column parameters |
| `Sql.SelectQueryShape` | DataManipulate.cs:402-406 | `Select(q)` keeps `q` verbatim: unchanged when nothing is declared, wrapped as `select cols from (q) d` when columns are, followed by ` where <predicate> ` when keys are |
| `Sql.SelectQueryParametersChoice` | DataManipulate.cs:407 | supplied parameters replace the key parameters; without them the key parameters are used |
| `RowMapping.Assign` | DataManipulate.cs:378 | setting a record field keeps the names in first-insertion order, adding the name at the end only if it is new |
| `RowMapping.AssignLookup` | DataManipulate.cs:378 | after setting `k` to `v`, `k` holds `v` |
| `RowMapping.AssignOthers` | DataManipulate.cs:378 | setting `k` leaves every other name's value unchanged |
| `RowMapping.AssignKeepsUnique` | DataManipulate.cs:378 | setting a field never creates a duplicate name |
| `RowMapping.NamesSnoc` | DataManipulate.cs:353-354 | declaring one more column adds its name to the declared names, and the names stay distinct exactly when it is new |
| `RowMapping.AliasDict` | DataManipulate.cs:353-354 | the alias dictionary succeeds exactly when no column name repeats, and then its keys are exactly the declared names |
| `RowMapping.AliasOf` | DataManipulate.cs:354 | definition of the dictionary's value selector, the stored alias; `RowMapping.AliasDictValues` states the values of the dictionary |
| `RowMapping.AliasDictValues` | DataManipulate.cs:353-354 | on success every declared name maps to the alias stored with it |
| `RowMapping.AliasDictDuplicate` | DataManipulate.cs:353-354 | on failure the error is the duplicate-key error, and its key is a name declared at two positions |
| `RowMapping.AliasDictFirstRepeat` | DataManipulate.cs:353-354 | the reported key is the FIRST repeat: the name at the earliest position whose prefix already declares it, with that prefix duplicate-free |
| `RowMapping.MapRow` | DataManipulate.cs:371-379 | the record built from a row has unique names |
| `RowMapping.MapRows` | DataManipulate.cs:369-381 | one record per row, in row order, record i being the mapping of row i |
| `RowMapping.MapRowLookup` | DataManipulate.cs:373-379 | each record name holds the value of the last row field renamed to it (alias if declared, own name otherwise); `DBNull` stays `Null` |
| `RowMapping.ProducesSnoc` | DataManipulate.cs:373-376 | a row renames some field to `n` exactly when its prefix does or its last field is renamed to `n` |
| `RowMapping.MapRowNames` | DataManipulate.cs:373-379 | the record holds exactly the final names of the row's fields |
| `RowMapping.FinalName` | DataManipulate.cs:376 | definition: the alias when the reader's name is a declared column, else the reader's name; `RowMapping.FinalNames`, `MapRowNames` and `MapRowLookup` state its use |
| `RowMapping.FinalNames` | DataManipulate.cs:373-376 | one final name per field, in field order: the alias when the reader's name is a declared column, else the reader's name |
| `RowMapping.DedupMembers` | DataManipulate.cs:378 | dropping repeats keeps exactly the names that occur |
| `RowMapping.MapRowOrder` | DataManipulate.cs:373-379 | the record's fields come in first-assignment order: the final names, each kept at its first occurrence, as the expando keeps an overwritten key in place |
| `RowMapping.AliasedReadExample` | DataManipulate.cs:369-381 | declared `id` and `x` aliased `y`, row `{id: 1, x: v}` give record `{id: 1, y: v}` |
| `DataManipulate.SpecificColumn.constructor` | DataManipulate.cs:47-52 | an untyped column binder starts with tag `Object` and no alias |
| `DataManipulate.SpecificColumn.Typed` | DataManipulate.cs:54-59 | a typed column binder keeps its declared tag, with no alias |
| `DataManipulate.SpecificColumn.Set` | DataManipulate.cs:29-33 | appends exactly `{name, v, Object, alias ?? name}` at the end of the columns; keys, table and transaction settings unchanged |
| `DataManipulate.SpecificColumn.As` | DataManipulate.cs:35-39 | records the alias on the binder and returns the same binder |
| `DataManipulate.SpecificColumn.Get` | DataManipulate.cs:41-45 | appends exactly `{name, Null, Object, alias ?? name}` at the end of the columns; nothing else changes |
| `DataManipulate.SpecificKey.constructor` | DataManipulate.cs:74-79 | an untyped key binder carries tag `Object` |
| `DataManipulate.SpecificKey.Typed` | DataManipulate.cs:81-86 | a typed key binder keeps its declared tag |
| `DataManipulate.SpecificKey.Set` | DataManipulate.cs:68-72 | appends exactly `{name, v, Object}` at the end of the keys; columns, table and transaction settings unchanged |
| `DataManipulate.SpecificDataSet.constructor` | DataManipulate.cs:175-178 | a new builder owns fresh metadata in the default state |
| `DataManipulate.SpecificDataSet.Table` | DataManipulate.cs:228-232 | sets schema `public` and the table, always successfully, overwriting earlier calls; nothing else changes |
| `DataManipulate.SpecificDataSet.TableInSchema` | DataManipulate.cs:234-238 | sets schema and table, always successfully, overwriting earlier calls; nothing else changes |
| `DataManipulate.SpecificDataSet.Column` | DataManipulate.cs:240-243 | hands out a new untyped column binder for this builder and declares nothing |
| `DataManipulate.SpecificDataSet.ColumnOfType` | DataManipulate.cs:245-248 | hands out a new typed column binder for this builder and declares nothing |
| `DataManipulate.SpecificDataSet.WithKeys` | DataManipulate.cs:250-253 | hands out a new key binder for this builder |
| `DataManipulate.SpecificDataSet.WithKeysOfType` | DataManipulate.cs:255-258 | the typed overload hands out a COLUMN binder |
| `DataManipulate.SpecificDataSet.WithTransaction` | DataManipulate.cs:260-270 | switches the transaction on and stores scope option, isolation level and timeout; columns, keys and table unchanged |
| `DataManipulate.SpecificDataSet.ClearMetaData` | DataManipulate.cs:410-414 | replaces the metadata by a fresh object in the default state |
| `DataManipulate.SpecificDataSet.CheckExistsTableName` | DataManipulate.cs:426-430 | fails with "Missing table name!" exactly when no table is set |
| `DataManipulate.SpecificDataSet.Truncate` | DataManipulate.cs:180-186 | fails exactly when no table is set; otherwise `truncate table s.t;` with no parameters |
| `DataManipulate.SpecificDataSet.Insert` | DataManipulate.cs:272-296 | never fails, with or without a table; the insert text and the column parameters; transaction settings play no part |
| `DataManipulate.SpecificDataSet.Update` | DataManipulate.cs:298-311 | fails exactly when no table is set; otherwise the update text with key-then-column parameters, independent of the transaction settings |
| `DataManipulate.SpecificDataSet.Delete` | DataManipulate.cs:313-333 | fails exactly when no table is set; otherwise the delete text with the key parameters only |
| `DataManipulate.SpecificDataSet.SqlRead` | DataManipulate.cs:351-385 | fails exactly when a column name repeats, with the dictionary's error; otherwise returns `MapRows` of the rows through the alias dictionary |
| `DataManipulate.SpecificDataSet.ReadRows` | DataManipulate.cs:369-381 | the reader loop returns exactly `MapRows` of the rows read |
| `DataManipulate.SpecificDataSet.ReadRow` | DataManipulate.cs:371-379 | the field loop builds exactly `MapRow` of the row |
| `DataManipulate.SpecificDataSet.Select` | DataManipulate.cs:394-400 | succeeds exactly when a table is set and no column name repeats; sends the keyed select with the key parameters and returns the renamed records |
| `DataManipulate.SpecificDataSet.SelectQuery` | DataManipulate.cs:402-408 | succeeds exactly when a table is set and no column name repeats; sends the wrapped or filtered query with the chosen parameters and returns the renamed records |
| `Scenarios.TableTwiceLastWins` | DataManipulate.cs:101-110 | `Table(a)` then `Table(b)` ends on `public.b`; the table is never locked |
| `Scenarios.TypedKeyDeclaresColumn` | DataManipulate.cs:255-258 | `WithKeys(n, type).Set(v)` leaves the keys empty and declares column `{n, v, Object, n}` |
| `Scenarios.UpdateIgnoresTransaction` | DataManipulate.cs:298-311 | on any builder, `Update()` gives the same statement before and after `WithTransaction` |
| `Scenarios.UpdateOne` | DataManipulate.cs:218-226 | `Table(t).Column(c).Set(v).WithKeys(k).Set(kv).Update()` gives `update public.t set c = :c_p` then a newline, 21 spaces and `where k = :k_cnd_p`, with the parameters `[k_cnd_p = kv, c_p = v]` |
| `Scenarios.InsertOne` | DataManipulate.cs:272-282 | `Table(t).Column(n).Set(v).Insert()` gives `insert into public.t (n) values (:n_p)` with the single parameter `n_p = v` |
| `Scenarios.DeleteOne` | DataManipulate.cs:313-321 | `Table(t).WithKeys(n).Set(v).Delete()` gives `delete from public.t where n = :n_cnd_p` with the single parameter `n_cnd_p = v` |
| `Scenarios.InsertWithoutTable` | DataManipulate.cs:272-282 | without a table, Insert still emits `insert into . (n) values (:n_p)` |
| `Scenarios.NoTableFails` | DataManipulate.cs:426-430 | without a table, Truncate, Update, Delete and Select all fail with the missing-table error |
| `Scenarios.RawQueryPassesThrough` | DataManipulate.cs:402-408 | `Select(q)` with nothing declared sends `q` unchanged, with no parameters |
| `Scenarios.DuplicateColumnFailsRead` | DataManipulate.cs:353-354 | declaring a column twice makes Select fail with the duplicate-key error for that name |

## Left out

- Execution through Npgsql/ADO.NET (`ExecuteSql`, `NpgsqlCommand`, `ExecuteReader`, `ExecuteNonQuery`, parameter objects). These are foreign driver calls. Terminal operations return the SQL text and parameter list instead, and reads take the rows the database returns as a parameter.
- The connection: the constructors that take one and open it (DataManipulate.cs:157-173), `For` (a no-op), and `Dispose`. These are connection lifecycle only. Disposing the builder is therefore not modelled.
- `System.Transactions.TransactionScope`: commit and rollback belong to a library whose behaviour this code does not show. The model stores the transaction flag and options as state set by `WithTransaction`, and proves that no SQL text or parameter list depends on them. The source never calls `scope.Complete()`. What that means for the executed statement is outside the model.
- `ToString`: JSON serialisation by Newtonsoft, a library not part of this model.
- `GetMetaData`: a public accessor (DataManipulate.cs:147-150). The binders read the builder's `metaData` field directly. Through this accessor a caller can also reach the typed `AddKey` overload (DataManipulate.cs:136-139), the public setters of `IsTransaction`, `TransactionOptions` and `TranScopeOption` (DataManipulate.cs:91-95), and the mutable `Columns` and `Keys` lists (DataManipulate.cs:96-97), which it can `Add` to or `Clear` directly, and so reach states that `SpecificDataSet.Valid` excludes; the model covers the fluent builder surface only.
- `Metadata.Message`: the duplicate-key text is the .NET dictionary's own message, not the source's; it is modelled as that runtime's prefix followed by the key, and its exact wording belongs to the runtime.
- The "Missing meta data!" branch of `CheckExistsTableName`: `_metaData` is assigned in every constructor and by `ClearMetaData`, and never set to null. The model's field is therefore non-null. The error is kept in `Error`, but nothing produces it.
- Null string arguments to `Table`, `Column`, `WithKeys` and `As`, and a null `query` passed to `Select(query)` (DataManipulate.cs:402). Names and queries are modelled as non-null strings. A table name is absent only before the first `Table` call.
- `DbType` semantics and real value types: tags form an enumeration that is carried and never read, and values are opaque.
- `RowMapping.AliasOf`: falls back to the column name if an entry has no alias. No entry of `Columns` lacks one, because `SpecificDataSet.Valid` keeps every column aliased. The null dictionary value the source could meet in that case is therefore not modelled.
- `Example.cs`: a demo caller with no logic of its own. The `Scenarios` module plays its part.
