# uskok-mysql: a verified model of statement generation and the task dispatcher

uskok-mysql is a small C# wrapper around MySqlConnector. A `DatabaseTable<T>`
derives a table from the public fields of a record type. It generates the
`CREATE TABLE`, `INSERT`/`REPLACE` and `SELECT` text for that table. Every
statement becomes a task on the queue of a `Database`. A dispatcher thread hands
each queued task to the first idle connection of a fixed pool. Values reach the
SQL text through `MYSqlParser`, which applies custom writers and strips the
characters `<`, `>` and `'` from strings.

This project models three parts of that code in Dafny and proves what they promise:

- `parser.dfy` (module `Parser`) models the value serialiser (Parser.cs):
  - the class `MySqlParser` with its dictionaries and illegal-character set;
  - `PurifyString` as a loop, proved equal to the filter function `Purified`;
  - `Parse` and `GetSqlString` as functions;
  - the dictionary merge of the constructor as the loop method `AddToDictionary`.
- `table.dfy` (module `Table`) models the statement builders of `DatabaseTable<T>` (Table.cs):
  - Reflection is replaced by a sequence of `FieldInfo` descriptors that carry the attribute flags.
  - A record is the sequence of its field values.
  - Each builder loop is a method proved equal to a specification function: `CreateStatement`, `TupleBody` and `InsertCommand`. The query text of `All`, two conditional appends, is proved equal to `SelectCommand`.
  - The functions are built on `Join` and on the builder idiom "append part and comma, then remove the last character" (module `Text`, `text.dfy`).
- `database.dfy` (module `Pool`) models the task queue and the dispatcher step (Database.cs):
  - The class `Database` holds the queue as a sequence and the connections' `Used` flags as an array.
  - The dispatcher's work is split into the steps `Dequeue`, `FirstIdle`/`Place` and `FinishTask`.
  - The ghost invariant `Valid` says that every task created by `Execute` is in exactly one place: handed off, held by the dispatcher, or queued, in creation order. It also says that a connection is `Used` exactly when it runs a task.
- `tasks.dfy` holds the task record (MYSqlTask.cs).
- `wrappers.dfy` holds `Option` and `Result`.

Modelling conventions:

- A boxed value is `Null`, `Str(s)` or `Scalar(text)`. For the last kind, `text` stands for what `ToString()` returns.
- A task's identity is its creation number. Its `Finished` flag is membership in the database's `finished` set.
- The two default DateTime conversions are constructor parameters and are not interpreted.
- Parser.cs does not declare `CustomMYSQLTypes`, but Database.cs assigns it and Table.cs reads it. The parser class therefore has a field `customMySqlTypes`, a map from type to column-type text.

## Model

| member | source | states |
|---|---|---|
| Parser.Purified | Parser.cs:68-78 | the purified text is no longer than the input and holds no illegal character |
| Parser.PurifiedAppend | Parser.cs:71-76 | filtering distributes over concatenation, so filtering character by character filters the whole text |
| Parser.PurifiedOfLegal | Parser.cs:68-78 | a text without illegal characters comes back unchanged |
| Parser.PurifiedIdempotent | Parser.cs:68-78 | purifying a purified text changes nothing |
| Parser.PurifiedKeepsLengthIffLegal | Parser.cs:71-76 | the length is kept if and only if the input had no illegal character |
| Parser.PurifiedIsSubsequence | Parser.cs:71-76 | the kept characters appear in the input in the same relative order |
| Parser.PurifiedCounts | Parser.cs:71-76 | every occurrence of a legal character is kept and no illegal character survives (multiset counts) |
| Parser.AddToDictionary | Parser.cs:18-26 | a missing addition leaves the dictionary as it was; otherwise the keys are the union, the addition's entries win, and every other key keeps its value |
| Parser.MySqlParser.constructor | Parser.cs:12-62 | the illegal set is exactly `<`, `>`, `'`; the DateTime defaults are present unless the caller overrides them; the caller's writers and readings override the defaults |
| Parser.MySqlParser.PurifyString | Parser.cs:68-78 | the scan returns exactly `Purified` of its input, the text with every illegal character deleted |
| Parser.ParseWithWriters | Parser.cs:93-98 | on a parser built from the caller's writers, Parse applies the caller's writer for its type, the default DateTime writer for DateTime unless the caller replaced it, and is the identity on every other type |
| Parser.MySqlParser.GetSqlString | Parser.cs:104-114 | `null` for a null parsed value; the parsed object's text for a non-string; for a string, a quoted literal whose interior is the purified string, with no quote inside when `'` is illegal |
| Parser.StringLiteralRoundTrip | Parser.cs:104-114 | a string without illegal characters and without a custom writer comes back unchanged from between the quotes |
| Text.DropLast | Table.cs:67 | removing the last character shortens the text by one and keeps everything before it |
| Text.TerminatedIsJoin | Table.cs:62-68 | appending every part followed by a comma, then dropping the last character, yields the parts joined by commas with no trailing comma |
| Text.DropLastOfTerminated | Table.cs:67-68 | the builder's text with its last character removed is the prefix followed by the joined parts |
| Text.NatToDecimal | Table.cs:38 | the rendering of a number is a non-empty string of digits without a leading zero |
| Text.DecimalRoundTrip | Table.cs:38 | reading back the rendered digits gives the number |
| Text.IntToDecimalInjective | Table.cs:38 | different MaxLength values render as different texts |
| Text.NegativeIffMinus | Table.cs:38 | the rendering starts with a minus sign exactly for negative numbers |
| Text.MagnitudeAfterMinus | Table.cs:38 | after the minus sign stand the digits of the magnitude |
| Table.ColumnsFrom | Table.cs:25-69 | there are never more columns than fields |
| Table.ColumnsFromSound | Table.cs:29-65 | each column comes from a field that is not ignored, carries that field's ordinal, and uses its `ColumnName` or field name and its auto-increment flag |
| Table.ColumnsFromOrdered | Table.cs:25-65 | columns keep the order in which `GetFields` returned their fields |
| Table.ColumnsFromComplete | Table.cs:25-65 | every field that is not ignored has a column |
| Table.ColumnsFromLength | Table.cs:29 | there is one column per field that is not ignored |
| Table.ColumnPosition | Table.cs:29-65 | a kept field's column sits at its field index minus the number of ignored fields before it |
| Table.PrimaryKeyIndexOf | Table.cs:15-51 | the primary-key index is -1 or a field index |
| Table.PrimaryKeyIndexSpec | Table.cs:48-52 | the index is -1 if and only if no kept field is a key; otherwise it is the field index, counting ignored fields, of the last kept key field |
| Table.PrimaryKeyColumn | Table.cs:174-177 | when no ignored field precedes the key, `Columns[PrimaryKeyIndex]` is the column of the field at the key index (the last kept key field), so GetByID filters on that key |
| Table.PrimaryKeyIndexPastIgnored | Table.cs:51 | for all fields: with an ignored field before the key, `PrimaryKeyIndex` either runs past `Columns` (GetByID throws) or names the column of a later field (GetByID filters on the wrong column) |
| Table.PrimaryKeyIndexCountsIgnoredFields | Table.cs:51 | one instance of the above: fields Cache (ignored), ID (key), Name give index 1, and column 1 is Name |
| Table.TypeStringOf | Table.cs:33-46 | a custom type entry wins; otherwise string maps to `VARCHAR(n)` or `TEXT`, int to `INT`, uint to `INT UNSIGNED`, long to `BIGINT`, ulong to `BIGINT UNSIGNED`, bool to `BOOLEAN`, and any other type to nothing (`MySqlTypeOf`) |
| Table.DefineColumn | Table.cs:48-64 | the column records the field, its index, its name and its auto-increment flag; the definition is the name, a space, the type text (empty when unmapped) and the extras in the order PRIMARY KEY, NOT NULL, AUTO_INCREMENT |
| Table.ScanFields | Table.cs:25-66 | after the field loop, the columns are `ColumnsFrom`, the key index is `PrimaryKeyIndexOf`, and the builder holds the prefix and every definition followed by a comma |
| Table.BuildSchema | Table.cs:22-77 | no command when no column remains; otherwise `CREATE TABLE IF NOT EXISTS` with the name, then the definitions joined by commas with no trailing comma, then `)` |
| Table.AutoIncrementValuesIgnored | Table.cs:89-98 | every auto-increment entry of a tuple is `null` whatever the record holds, so records that agree on the other columns give the same literals |
| Table.LiteralOf | Table.cs:91-97 | `null` for an auto-increment column, else the SQL literal of the field's value for the field's type |
| Table.DatabaseTable.constructor | Table.cs:18-84 | columns and key index as above; `Created` is false; with no columns nothing is queued, otherwise exactly the DDL joins the parent's queue |
| Table.DatabaseTable.GetInsertString | Table.cs:86-102 | a row becomes `(`, its literals joined by commas, `)` and a comma (`),` alone when there are no columns) |
| Table.DatabaseTable.GetSqlStringForArray | Table.cs:104-115 | empty text for no rows; otherwise `INSERT` or `REPLACE` per the flag, ` INTO `, the name, ` VALUES `, the row tuples joined by commas, then `;` |
| Table.DatabaseTable.Insert | Table.cs:121-127 | exactly one task with the INSERT statement joins the queue, even the empty statement for no rows |
| Table.DatabaseTable.Replace | Table.cs:133 | exactly one task with the REPLACE statement joins the queue |
| Table.DatabaseTable.All | Table.cs:143-149 | one task joins the queue: `SELECT * FROM` the table, ` as alias` only with an alias, ` WHERE cond` only with a condition, read back by the table's row reader |
| Table.DatabaseTable.GetById | Table.cs:174-178 | without a key nothing is queued and an error results; with a key index past the columns an index error results; otherwise All runs with `column = literal` for `Columns[PrimaryKeyIndex]` |
| Pool.Database.constructor | Database.cs:23-33 | a pool of the given size with every connection idle and an empty queue; the parser is a default one: the default illegal set, only the DateTime writer and reader, and the caller's custom MySQL types or none |
| Pool.Database.Execute | Database.cs:103-106 | a null command is rejected and nothing changes; otherwise exactly one new unfinished task with that command and callback joins the back of the queue |
| Pool.Database.IsFinished | Database.cs:107 | the wait condition holds exactly when the task's Finished flag is set, which only a handed-off task can have |
| Pool.Database.Dequeue | Database.cs:47 | the head of the queue, if any, is taken and the rest keep their order; an empty queue gives nothing |
| Pool.Database.FirstIdle | Database.cs:52-55 | the lowest index whose connection is not Used, or none when all are Used |
| Pool.Database.Place | Database.cs:49-62 | the held task goes to the lowest idle connection, which becomes Used, and no other flag, task or queue entry changes; with no idle connection nothing changes and the task stays held |
| Pool.Database.CreationOrder | Database.cs:47 | handed-off, held and queued tasks follow creation order, so tasks leave the queue in the order Execute added them |
| Pool.Database.BusyWithinCapacity | Database.cs:52-58 | each busy connection runs its own task, so no more tasks run than there are connections |
| Pool.Database.FinishTask | Connection.cs:71-72 | the task becomes Finished and its connection idle; nothing else changes |

## Left out

- MySqlConnector calls are not modelled: opening, executing, reading and disposing (Connection.cs). A connection is reduced to its `Used` flag and the task it runs.
- The retry on error codes None and UnableToConnectToHost (Connection.cs:53-58) is not modelled. On that path `Used` is cleared twice, by the inner call's Connection.cs:72 and again by the outer frame's, so the source can mark a connection idle while it runs a newer task. `Valid`'s "Used exactly when running" and `BusyWithinCapacity` hold only without the retry.
- Threads, `Thread.Sleep`, the `Task.Delay` polling, `LoopThread.Abort`, `Dispose` and `Close` are not modelled, because they concern timing and teardown. The dispatcher loop is modelled by its individual steps.
- Pool.Database.Execute: returns once the task is queued. The wait until `Finished` (Database.cs:107) is the separate step `IsFinished`.
- Pool.Database.constructor: describes the pool after `InitConnections` has opened every connection. A failure while opening, a negative pool size (the size is a `nat`) and the console message are not modelled.
- Pool.Database.constructor: ignores the `customConversion` argument. Parser.cs declares no `CustomConversions` and nothing reads it.
- Parser.MySqlParser.constructor: the DateTime writer and reader are uninterpreted parameters, because they rely on `DateTime` arithmetic and a `double` millisecond count.
- Text.IntToDecimal: renders `MaxLength` (Table.cs:38) as the invariant culture does. The current culture's `NegativeSign` may differ from `-`, which only matters for a negative `MaxLength`.
- Parser.MySqlParser.GetSqlString: `ToString()` of a non-string value is not interpreted (`Scalar.text`). For example, C# renders `bool` as `True`/`False`.
- `ReadType` (Parser.cs:121-131) and the row-reading loop of `All` (Table.cs:149-169) are not modelled: they are reader I/O and reflection `SetValue`. The callback of `All` is the tag `TableRowReader`.
- Table.DatabaseTable.Insert: a null array makes the source throw at Table.cs:106 before anything is queued, and a null element throws at Table.cs:97 when some column is not auto-increment. A sequence of records cannot be null, so the model always queues a task. The same holds for Table.DatabaseTable.Replace and Table.DatabaseTable.GetSqlStringForArray.
- Parser.MySqlParser.PurifyString: C# strings are sequences of UTF-16 code units, while a Dafny `char` is a Unicode scalar value. The two filters differ only when the illegal set holds a surrogate code unit.
- `Parse<T>(T value)` (Parser.cs:85) is the same as `Parse(value, typeof(T))`, which is modelled.
- Table.DatabaseTable.constructor: queues the DDL at once instead of through `Task.Run`. `Created` becoming true after the statement has run is not modelled.
- Table.DatabaseTable.GetById: the thrown exceptions become `Failure` results.
- The console output of the table constructor and of `Insert` is not modelled.
- Debugger.cs, Testing.cs and Atributes.cs are not part of this model. The attributes' meaning is carried by the flags of `FieldInfo`.
