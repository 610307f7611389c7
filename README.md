# gorm-bulk in Dafny

gorm-bulk turns a list of Go values into a single multi-row `INSERT` for the
gorm ORM. This project models that work in three stages and proves what each
stage promises:

- **Row normaliser (`ObjectToMap`).** It turns one struct into a map from
  column name to value. A fixed chain of six exclusion rules decides which
  fields are dropped. Blank `CreatedAt` and `UpdatedAt` fields take the batch
  time.
- **Batch assembler (`scopeFromObjects`).** It takes the first object's keys
  as the columns and sorts them before quoting. It adds one `(?, …, ?)` group
  per object and flattens every object's values in row-major order. It then
  hands the quoted columns and the groups to a statement strategy
  (`ExecFunc`).
- **Chunker (`BulkExecChunk`).** It cuts the input into consecutive chunks
  and runs `BulkExec` once per chunk. It collects the errors in chunk order,
  and a failing chunk does not stop the later ones.

The statement strategies `InsertFunc`, `InsertIgnoreFunc` and
`InsertOnDuplicateKeyUpdateFunc` are modelled exactly, down to their SQL
text.

## Module layout

| file | module | what it holds |
|---|---|---|
| `types.dfy` | `Types` | Values: field records, objects, times, errors, statements |
| `go_std.dfy` | `GoStd` | The parts of Go's standard library in use: `strings.Join`, string order and `sort.Strings`, ASCII `EqualFold`, and `fmt.Sprintf` for `%s`/`%%` |
| `gorm.dfy` | `Gorm` | The ORM collaborators: `Scope`, a class holding the SQL and its values; `DB`, a class executing statements against an oracle; backtick quoting |
| `row_normalizer.dfy` | `RowNormalizer` | The exclusion rules and the specification of `ObjectToMap` |
| `assembler.dfy` | `Assembler` | The specification of `scopeFromObjects`, with its ordering and counting properties |
| `exec_func.dfy` | `ExecFuncs` | The three strategies, `defaultWithFormat`, and the `ExecFunc` type |
| `chunker.dfy` | `Chunker` | Chunking, and the specification of a chunked run |
| `gorm_bulk.dfy` | `GormBulk` | The package state (`bulkNow`) and the imperative functions, each proved against the specifications above |

There is one global variable, `bulkNow`. It is a field of the class
`GormBulk.Package`.

The loops of `scopeFromObjects` and of `BulkExecChunk` are split into
methods, one per loop (`ColumnNames`, `QuoteColumns`, `AddRows`,
`RowValues`) or one per loop turn (`NextChunk`). This keeps each proof small.
The Go code writes each of them as one function.

The database is an oracle. `DB.respond(n, statement)` is the error message,
if any, that the data store returns for the `n`-th statement sent through
the handle. `DB.executed` logs every statement sent.

The clock is a parameter:
- `BulkExec` and `scopeFromObjects` take the reading of `gorm.NowFunc()`.
- `BulkExecChunk` takes one reading per chunk (`clock(k)` for chunk `k`),
  because each `BulkExec` call reads the clock afresh.

## Model

| member | source | states |
|---|---|---|
| RowNormalizer.Dispose | gorm_bulk.go:190-237 | A field is skipped exactly when one of the six rules excludes it. The rule reported is the first in test order. A blank kept `CreatedAt`/`UpdatedAt` takes the batch time. Every other kept field keeps its own value. |
| RowNormalizer.AttributesOf | gorm_bulk.go:190-240 | The map's keys are exactly the column names of the fields that no rule excludes. |
| RowNormalizer.ToMap | gorm_bulk.go:175-184 | Succeeds exactly for a struct or a pointer to a struct. Anything else, including a pointer to a pointer, fails with NotStruct, whose message is "value must be kind of Struct". |
| RowNormalizer.AttributeIsLastKept | gorm_bulk.go:230-237 | When several kept fields share a column name, the last one decides the map entry, with its kept value. |
| RowNormalizer.ExcludedFieldAbsent | gorm_bulk.go:190-228 | An excluded field is absent from the map when every other field with the same column name is excluded too. |
| RowNormalizer.BlankTimestampGetsNow | gorm_bulk.go:230-235 | A blank timestamp field gets the batch time. A non-blank one keeps its own value. |
| RowNormalizer.BlankTimestampWithDefaultOmitted | gorm_bulk.go:210-214 | The DEFAULT rule runs before the timestamp rule. A blank timestamp with a DEFAULT tag is left out, not stamped. |
| RowNormalizer.AutoIncrementFalseKeepsField | gorm_bulk.go:224-228 | The AUTO_INCREMENT rule keeps the field exactly when the tag's value is "false" in any mix of ASCII letter case. An empty value or "true" excludes it. |
| RowNormalizer.KeptNamesAppend | gorm_bulk.go:190-238 | One more field adds its column name to the kept names exactly when no rule excludes it. |
| RowNormalizer.AttributesStep | gorm_bulk.go:190-238 | One more loop turn leaves the map unchanged for a skipped field. For a kept field, it sets that field's entry. |
| GormBulk.Package.ObjectToMap | gorm_bulk.go:169-241 | The loop's result equals ToMap, at `bulkNow` when it is set and at the clock's reading otherwise. |
| GoStd.SortStrings | gorm_bulk.go:122 | The result is sorted by Go's string order and is a permutation of the input. |
| GoStd.SortedKeys | gorm_bulk.go:113-123 | The key set in strictly ascending order: each key appears exactly once. |
| GoStd.SortedUnique | gorm_bulk.go:113-123 | Two sorted lists with the same distinct elements are equal. This is why re-sorting after every key gives one fixed order. |
| GormBulk.ColumnNames | gorm_bulk.go:113-123 | Whatever order the map yields its keys in, the column names are the first map's keys in ascending order. There is one `?` per column. |
| GormBulk.QuoteColumns | gorm_bulk.go:129-131 | Each sorted raw name is quoted, in the same order. |
| GormBulk.RowValues | gorm_bulk.go:141-143 | An object's values are its map read at each column, in column order, with nil for a missing key. |
| GormBulk.Package.AddRows | gorm_bulk.go:133-152 | On success, one group per object, and the scope's values are every row's values, row after row. Otherwise, the error of the first object that is not a struct. |
| GormBulk.Package.ScopeFromObjects | gorm_bulk.go:85-157 | No scope and no error for no objects. Otherwise it sets and then resets the batch time. It returns NotStruct with no scope when some object is not a struct. Otherwise it returns a fresh scope holding exactly the strategy's statement over the assembled parts. |
| Assembler.NormalizeAll | gorm_bulk.go:133-139 | Succeeds exactly when every object has a map. The rows are then those maps, in order. A failure is NotStruct. |
| Assembler.AssembleOutcome | gorm_bulk.go:86-111 | No objects assemble to nothing. Assembling fails exactly when some object is not a struct or a pointer to one, and then with NotStruct. A success carries a statement. |
| Assembler.ColumnsAreSortedFirstKeys | gorm_bulk.go:113-123 | The columns are strictly ascending and are exactly the keys of the first object's map. The table is the first object's. |
| Assembler.QuotedFollowRawOrder | gorm_bulk.go:125-131 | The quoted columns are the sorted raw columns quoted one by one. |
| Assembler.QuotingAfterSortingMatters | gorm_bulk_test.go:404-420 | "time" sorts before "time_from", but their quoted forms sort the other way. So quoting must come after sorting. |
| Assembler.OneGroupPerObject | gorm_bulk.go:145-148 | There is one group per object. Each is `(` + the placeholders joined by `, ` + `)` and holds exactly one `?` per column. |
| Assembler.GroupOfTwo | gorm_bulk.go:145-148 | The group of a two-column row is `(?, ?)`. |
| Assembler.FlatArgsAreRowMajor | gorm_bulk.go:141-151 | The flattened values hold rows times columns entries. The entry at position row × columns + column is that row's value at that column. |
| Assembler.ValuesAreRowMajor | gorm_bulk.go:141-151 | The scope's values are the normalised rows laid out row-major in the column order. |
| Assembler.ArgCount | gorm_bulk.go:141-151 | The number of values is the number of objects times the number of columns. |
| Assembler.ArgAt | gorm_bulk.go:141-151 | Value `i` is object `i / n`'s map at column `i % n`, where `n` is the number of columns. |
| Assembler.DivModOffset | gorm_bulk.go:141-151 | Every position among `m` rows of `n` values lies in row `i / n` at column `i % n`. |
| Assembler.MissingColumnIsNil | gorm_bulk.go:141-143 | A later object without one of the columns binds nil in that slot, without error. |
| Assembler.LaterOnlyKeyDropped | gorm_bulk.go:113-123 | A key missing from the first object's map is never a column. |
| Assembler.TimestampsShareNow | gorm_bulk.go:99-104 | Every blank timestamp of one batch, in any row, binds the same batch time. |
| Assembler.BuiltInStatement | gorm_bulk.go:154 | A bundled strategy keeps the assembled values. Its SQL is the strategy's text over the quoted table, the quoted columns and the groups. |
| ExecFuncs.DefaultWithFormatShape | exec_func.go:67-85 | Filling a strategy's format gives the verb, the table, the comma-joined columns and groups, and the option's text. Everything is inserted verbatim, even when the option contains `%`. |
| ExecFuncs.InsertFunc | exec_func.go:21-23 | `INSERT INTO t (cols) VALUES groups`, followed by a space and the insert option when one is set. |
| ExecFuncs.InsertIgnoreFunc | exec_func.go:32-34 | The same text with `INSERT IGNORE`, and it honours the insert option too. |
| ExecFuncs.UpdateClauseFormatShape | exec_func.go:52 | Formatting one column gives `c = VALUES(c)`. |
| ExecFuncs.OnDuplicateKeyUpdateFormatShape | exec_func.go:58-64 | The format fills to the plain insert, then ` ON DUPLICATE KEY UPDATE `, then the update clauses. |
| ExecFuncs.InsertOnDuplicateKeyUpdateFunc | exec_func.go:46-65 | The plain insert followed by one `c = VALUES(c)` per column, in column order and comma-joined. The insert option is not used. |
| ExecFuncs.Apply | exec_func.go:10 | A bundled strategy leaves the statement's values as they are. |
| ExecFuncs.Run | exec_func.go:10 | The scope ends up holding Apply's statement. A bundled strategy sets only the SQL and leaves the values. |
| Gorm.Scope.Raw | exec_func.go:58 | Raw stores the statement text. |
| Gorm.DB.Exec | gorm_bulk.go:82 | The statement is appended to the log, and the data store's answer to it is returned. |
| GormBulk.Package.BulkExec | gorm_bulk.go:71-83 | An assembly error is returned and nothing is executed. No objects means nothing is executed and nothing is returned. Otherwise the statement is executed once and the store's error is returned. |
| GormBulk.Package.BulkInsert | gorm_bulk.go:22-24 | BulkExec with the plain INSERT strategy. |
| GormBulk.Package.BulkInsertIgnore | gorm_bulk.go:27-29 | BulkExec with the INSERT IGNORE strategy. |
| GormBulk.Package.BulkInsertOnDuplicateKeyUpdate | gorm_bulk.go:32-34 | BulkExec with the ON DUPLICATE KEY UPDATE strategy. |
| GormBulk.Package.NextChunk | gorm_bulk.go:42-59 | One loop turn: it cuts off the next chunk, runs it, and records its outcome. The input shrinks, and what is left is the rest of the run. |
| GormBulk.Package.BulkExecChunk | gorm_bulk.go:38-67 | The errors are those of BulkExec on each chunk, in chunk order. The log gains the statements of every chunk that assembled, in chunk order. |
| Chunker.Chunks | gorm_bulk.go:42-50 | The loop always takes at least one chunk: an empty input gives one empty chunk. |
| Chunker.ChunksCoverInput | gorm_bulk.go:42-50 | The chunks, laid end to end, are exactly the input. |
| Chunker.ChunkSizes | gorm_bulk.go:44-50 | Every chunk but the last holds exactly `chunkSize` objects. The last holds 1 to `chunkSize` objects, or is the single empty chunk of an empty input. |
| Chunker.ChunkCount | gorm_bulk.go:41-60 | The number of chunks is the input size divided by `chunkSize`, rounded up, and is 1 for an empty input. |
| Chunker.SevenInChunksOfThree | gorm_bulk_test.go:336-363 | Seven objects in chunks of three give chunks of three, three and one objects. |
| Chunker.StepAt | gorm_bulk.go:52-54 | Chunk `i` is run with clock reading `i` and after the statements of earlier chunks, whatever those chunks returned. |
| Chunker.ErrorsInChunkOrder | gorm_bulk.go:52-54 | A failing chunk's error is in the list, at the position given by the number of earlier failures. |
| Chunker.NoErrorsIffNoFailure | gorm_bulk.go:62-66 | The result is empty (nil) exactly when no chunk failed. |
| Chunker.LaterChunksStillExecuted | gorm_bulk.go:52-59 | Every chunk that assembles is executed, in chunk order, after any failing chunks before it. |
| Chunker.EveryBadObjectReported | gorm_bulk_test.go:302-313 | Objects that are not structs, in chunks of one, give one error per object and execute nothing. |
| Chunker.BadChunk | gorm_bulk.go:136-139 | A one-object chunk that is not a struct fails with NotStruct and executes nothing. |
| Chunker.ChunkLoopTurn | gorm_bulk.go:44-59 | One loop turn splits the run into the step for the current chunk and the run of the rest. |
| Chunker.RecordStep | gorm_bulk.go:52-54 | One more chunk extends the error list and the statement log by that chunk's outcome. |

## Left out

- Database I/O. `db.Exec` and the driver are an oracle (`DB.respond`) plus a log of the statements sent. Errors raised by the driver are not otherwise modelled.
- Reflection. The fields of a struct are given as a list of field records. Each record holds the column name, the Go field name, the tag settings, the relationship, ignore, default-value, primary-key and blank flags, and the value. How gorm derives these from a Go type is not part of this model. The table name is part of the struct value.
- RowNormalizer.ToMap: a nil pointer of a struct type makes the Go code panic in reflection, not return an error. Such a value is not represented: a pointer always has a target. The nil interface is `Scalar(Nil)`, which fails with NotStruct, as in the Go code.
- `gorm.ToColumnName` is the identity here. Column names are already database names, so it changes nothing unless a tag names a column in CamelCase.
- Gorm.Quote: backtick quoting without gorm's handling of dotted names (`db.table`) and of names that are already quoted.
- GoStd.EqualFold: ASCII case folding only, where Go applies Unicode simple folding. The "false" test differs only for the long s `ſ` (U+017F), which Go folds onto `s`: Go keeps a field tagged `falſe`, and the model excludes it.
- Time is a token: the zero time or a distinct instant. Equality is the only operation on it. `gorm.NowFunc()` is a parameter, read once per call to `BulkExec` (`clock`). In `BulkExecChunk` it is read once per chunk (`clock(k)`).
- GormBulk.Package.ScopeFromObjects: a clock reading that is the zero time is assumed to repeat. In Go, `bulkNow` then stays zero, and `ObjectToMap` reads `gorm.NowFunc()` again for each object (gorm_bulk.go:186-188), so each object may get its own time. The model passes the same reading as that fallback. Assembler.TimestampsShareNow, BulkExec and BulkExecChunk inherit this.
- Concurrent callers sharing the global `bulkNow` are not modelled. Each `Package` is used by one caller at a time.
- Gorm.Scope.Raw stores the SQL text only. The rest of gorm's scope machinery (callbacks, `AddToVars` placeholder rewriting) is left out. The per-object scopes of `scopeFromObjects` are represented by the values they collect (GormBulk.RowValues).
- GormBulk.Package.BulkExecChunk: `chunkSize` must be positive. With zero and a non-empty input the Go loop never ends, because `objects[:0]` never shrinks the input. With zero and no objects it returns nil at once, a case this requirement also excludes. With a negative size, `len(objects) <= chunkSize` never holds, so slicing panics even on no objects.
- Go's `[]error(nil)` and an empty error slice are both the empty sequence. Likewise, `*gorm.Scope` nil is `null`.
- `sort.Strings` compares UTF-8 bytes. Dafny characters are Unicode scalar values compared by code point, and the two orders agree.
- Two tests expect `created_at` to be left out of the ON DUPLICATE KEY UPDATE list (exec_func_test.go:55-59, gorm_bulk_test.go:225-238). The code at exec_func.go:49-54 updates every column, and the model follows the code.
- The usage demo `bulk_insert.go` is a program with no core logic. It is not part of this model.
