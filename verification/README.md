# Proofs about the table store and the query engine

This project models the parts of the repository in which several pieces of code have to agree with
each other, and proves that they do.

**Columnar tables** (`src/cstable`). `CSTableBuilder` takes nested records apart into one stripe per
leaf field, of repetition level, definition level and value; `RecordMaterializer` puts records
together again, column by column, in the order of a hash map. Modules `Messages`, `Columns`,
`Shredding`, `TableBuilder`, `Assembly`, `NoPadding`, `Materializer` and `RoundTrip`; the file format and
its codecs are in `TableFile`, `TableLayout`, `TableBytes` and `BitPack`, and `StoredTable` puts everything
together.

**The nested scan** (`src/csql/CSTableScan.cc`). One loop walks columns of different depth in lock
step and feeds aggregates. Modules `Aggregates`, `TableScan` and `ScanOfRecords`.

**Distributed grouping** (`GroupBy.cc`, `GroupByMerge.cc`, `ExecutionContext.cc`). Shards are grouped by
tasks under a limit, and merged under a lock in any order. The tasks are a state machine whose steps
are spawning, accumulating, merging and exiting. Modules `GroupBy`, `GroupByMerge` and `GroupCodec`.

**The SQL front end** (`src/csql/parser`, `src/csql/qtree`, `queryplanbuilder.cc`). Tokenizer, parser with
a moving cursor, printing of expressions that are parsed again on another server, and the plan builder
that splits a query into an outer and a child select list. Modules `SqlTokenizer`, `SqlText`, `SqlSpelling`,
`SqlParser`, `Precedence`, `SqlStatement`, `StatementText`, `RemoteSql`, `RemoteRoundTrip`,
`RemoteLimits`, `RemoteAggregate`, `AstNode`, `SelectList`, `PlanPrepare`, `PlanStages`, `PlanBuilder`,
`StatementPlan`, `PlanLimits`, `PlanClauses` and `StringUtil`; what a plan does and what a statement asks for is in
`PlanMeaning`, which statements have a plan in `PlanExistence`, and `SqlQuery` goes from the characters of a query
to the rows that its plan puts out.

**Algorithms** (`src/stx`): `SHA1`, with a worked digest in `SHA1Example`, `Uri` and `Human`.

Methods stand for the code, with its loops and its fields; each is proved against a function, and what
the code is for is proved about that function. `dafny verify dfyconfig.toml` checks everything.

## Findings

Where the code does not do what its documentation or its own structure promises, the model follows the
code, and the exact condition is proved.

- A prefix minus, exclamation mark or NOT takes the whole expression behind it; the table in
  `src/csql/parser/parser.h:38-53` gives the first two the highest levels (`SqlQuery.PrefixTakesAll`).
- Building the plan of a grouping never ends if an aggregate is nested in a call WITHIN RECORD:
  `SELECT count(sum(x)) WITHIN RECORD FROM t` (`PlanBuilder.BuildEndsIff`, `PlanLimits.NestedCallNeverEnds`).
- A column is pushed down twice if the query asks for it and later calls `repeat_value` on it
  (`SelectList.ColumnsOnceIff`).
- Of two wildcards beside each other the second is not expanded, and that is the only way for one to be left
  over (`PlanPrepare.WildcardsExpanded`). It is expanded one stage later, so that an order in between cuts its
  rows at the wrong place and sorts by the wrong column (`PlanClauses.TwoWildcardsShiftSort`).
- Of two children of a kind beside each other `removeChildrenByType` leaves the second (`AstNode.ErasedIff`).
- WHERE, HAVING, GROUP BY and ORDER BY are accepted without an expression, or with nothing between two commas,
  and then hold a null pointer (`StatementText.EmptyClauseIff`, `EmptyKeyIff`, `EmptySortIff`); a SELECT without
  FROM needs a semicolon (`StatementText.NoFromNeedsSemicolon`).
- HAVING and GROUP OVER TIMEWINDOW make a statement fail without WHERE (`PlanClauses.HavingNeedsWhere`), and do
  nothing behind it (`PlanClauses.HavingIsIgnored`, `WindowIsIgnored`).
- Sorting by an operator, or by nothing, dereferences a null pointer as soon as a column has a name
  (`PlanClauses.SortNeedsToken`).
- No plan asks a scan to aggregate over all its records, although scans can (`PlanBuilder.PlanShape`).
- Texts with a quote, negative integers, NULL, calls without arguments, calls and columns named by a keyword,
  and column indexes on a second trip do not arrive at another server (`RemoteLimits.LiteralArrivesIff`,
  `RemoteLimits.CallArrivesIff`, `RemoteLimits.ColumnArrivesIff`, `RemoteLimits.SecondTrip`).
- With room for a single task, grouping waits forever (`GroupByMerge.StuckWithoutRoom`).
- SUM over numbers of both types has the type of the last one: if that is an integer, the fraction of the sum is
  dropped (`Aggregates.GetMeans`).
- A number in a 32-bit column is kept modulo 2^32, and in a boolean column only whether it is positive
  (`Messages.Stored`).
- A merged SUM is always a floating point number, also over integers (`GroupByMerge.ReturnsCentralResult`).
- A field that is not repeated but occurs twice is accepted. In front of the first repeated field of a path it
  gives the column a record too many, below a repeated field an element too many and no record
  (`Shredding.OccurrencesStartRecords`, `OccurrencesStartElements`; for whole tables `ScanOfRecords.StreamStartsIff`).
- Of two columns with the same name a reader knows the first (`TableFile.ByNameOneMore`).
- SHA-1 leaves the high word of the length zero, which differs from RFC 3174 from 2^29 bytes on
  (`SHA1.PaddingIsStandardIff`).
- A query string is cut at its first empty key (`Uri.QueryRoundTripIff`).
- No cell is detected as a decimal number, and an empty cell is an unsigned integer, although both have
  types of their own (`Human.DetectLimits`).

## Model

| member | source | states |
|---|---|---|
| StoredTable.StoreAndLoad | src/cstable/CSTableWriter.cc:52-89 | Records to bytes and back: for every schema and every list of conforming records whose texts are bytes, every record read from the file, with any of them skipped, has for every field of the schema the occurrences that were written, in their order, and nothing else. A scalar comes back as it was if it has the type of its column; a number in a column of another type comes back as the same number, modulo 2^32 in 32 bits, and in a boolean column as whether it is positive. It does not matter in what order columns are written and visited, or what the buffers held before; the only condition is that the sizes fit the fields of the file |
| RoundTrip.WriteAndRead | src/cstable/CSTableBuilder.cc:117-180 | For every schema whose objects have leaves and every list of conforming records: after writing all of them and opening a materializer, reading or skipping each record as the caller likes, every record that is read has the fields, occurrences and objects of the one written and what its columns keep of the scalars, in whatever order the columns are visited; converted numbers are included |
| RoundTrip.WriteTable | src/cstable/CSTableBuilder.cc:117-123 | Adding conforming records and handing all columns to the table leaves in every column exactly the concatenation of the records' blocks, with the column's largest levels |
| RoundTrip.ReadRecords | src/cstable/RecordMaterializer.cc:31-55 | The same for any table that holds the records' columns |
| RoundTrip.ExactIsRestored | src/cstable/RecordMaterializer.cc:131-219 | Where all scalars have the types of their columns and there is no field besides the schema, what comes back is the record itself, up to the order of children with different ids |
| Messages.Stored | src/cstable/CSTableBuilder.cc:204-254 | A column takes the scalars of its own type and some numbers of other types, and no others; what it keeps is the scalar, the number, the number modulo 2^32, or whether it is positive |
| Messages.KeptIsStored | src/stx/protobuf/MessageObject.cc:235-288 | What is kept determines what is stored |
| Materializer.RecordMaterializer.NextRecord | src/cstable/RecordMaterializer.cc:31-35 | The record that is assembled holds exactly what the open columns determine of the next written record, in whatever order the columns are visited, and every column then stands before the record after it |
| Materializer.RecordMaterializer.SkipRecord | src/cstable/RecordMaterializer.cc:37-55 | Skipping moves every column to where reading the record would have left it |
| Assembly.LoadBlock | src/cstable/RecordMaterializer.cc:57-91 | Loading one more column into a record assembled from any set of other columns gives the record assembled from that set and the new column, whatever was loaded before |
| NoPadding.NothingMadeUp | src/cstable/RecordMaterializer.cc:156-158 | On stripes that the shredder has written, the loops that append empty objects until an element number is reached never run, whatever other columns have been loaded before |
| Materializer.ColumnState.LoadNext | src/cstable/RecordMaterializer.cc:57-91 | A column standing before written records adds its part of the first one and stands before the rest; no object is made up on the way |
| Materializer.ColumnState.SkipNext | src/cstable/RecordMaterializer.cc:37-55 | Skipping one record leaves the column where loading it would |
| Shredding.BlockWellFormed | src/cstable/CSTableBuilder.cc:125-202 | What one record writes to a column is never empty, starts with the level it was called with, continues with larger repetition levels only, stays within the column's largest levels, and has a value exactly where the definition level is the largest |
| Shredding.FieldsAccepted | src/cstable/CSTableBuilder.cc:125-180 | Shredding a record fails if and only if a required field is missing or a value has a type its column cannot store; repeated occurrences of a field that is not repeated are accepted |
| Shredding.OccurrencesStartRecords | src/cstable/CSTableBuilder.cc:138-180 | What an accepted record does to the column at any path: it starts as many records as the fields in front of the first repeated one occur along the path, at least one, and exactly one if and only if none of those fields, the leaf included where nothing is repeated, occurs twice along it |
| ScanOfRecords.StreamStartsIff | src/csql/CSTableScan.cc:90-100 | The stripe of a whole list of accepted records has as many record starts as there are records, on which the scan relies, if and only if in none of them such a field occurs twice along the path; otherwise it has more |
| Shredding.OccurrencesStartElements | src/cstable/CSTableBuilder.cc:138-180 | Below a repeated field: its occurrences start one record at most, and every occurrence is one element if and only if no field between it and the next repeated one occurs twice; otherwise there are more elements, and no more records |
| Shredding.BlockStarts | src/cstable/CSTableBuilder.cc:138-180 | The number of parts that a block starts at the level of the repeated field around it, for every path and level; the first has the level that was asked for and the others that of the repeated field |
| Shredding.TwiceAtTopAndBelow | src/cstable/CSTableBuilder.cc:138-180 | An instance: a leaf that occurs twice gives two records at the top, and one record with two elements inside the only element of a repeated object |
| Shredding.ConformingOccursOnce | src/cstable/CSTableBuilder.cc:138-180 | Where no field occurs more often than the schema allows, no path has such a field |
| Shredding.FieldsOfColumn | src/cstable/CSTableBuilder.cc:125-180 | The writes that a record makes to one column, among all its writes, are the block of that column's path |
| Shredding.FieldsElsewhere | src/cstable/CSTableBuilder.cc:125-202 | A record writes only to the columns of the fields it is shredded by |
| TableBuilder.RecordAppendsBlocks | src/cstable/CSTableBuilder.cc:117-123 | Adding a record appends to every column its block and changes no other |
| TableBuilder.CreatedLevels | src/cstable/CSTableBuilder.cc:35-49 | The column of every leaf is created with the number of repeated fields on its path, and of optional or repeated ones, as largest levels, and is empty |
| Shredding.LevelsAreCounts | src/cstable/CSTableBuilder.cc:43-49 | The largest levels along any path count its repeated fields, and its repeated or optional ones |
| Shredding.ColumnNameIsJoined | src/cstable/CSTableBuilder.cc:40-54 | A column is called by the names of the fields on its path, with dots between them |
| TableBuilder.CSTableBuilder.constructor | src/cstable/CSTableBuilder.cc:26-33 | One empty column for every leaf of the schema, named by its path |
| TableBuilder.CSTableBuilder.CreateColumns | src/cstable/CSTableBuilder.cc:35-115 | The columns below a field are created; a name that is already there keeps its column |
| TableBuilder.CSTableBuilder.AddRecord | src/cstable/CSTableBuilder.cc:117-123 | The columns take all writes of the record up to its error, if there is one, and the record is counted only without an error |
| TableBuilder.CSTableBuilder.AddRecordField | src/cstable/CSTableBuilder.cc:125-180 | The same for one field: nulls if it does not occur, otherwise one element after the other, the first at the level of the record and the others at the level of the field |
| TableBuilder.CSTableBuilder.WriteNull | src/cstable/CSTableBuilder.cc:182-202 | A null goes to every leaf below the field |
| TableBuilder.CSTableBuilder.WriteField | src/cstable/CSTableBuilder.cc:204-254 | One entry with the value converted to the column's type, or an error and no write if the value does not convert |
| Columns.DecodeWritten | src/cstable/ColumnWriter.cc:52-58 | Reading back the three streams of a column by the rule that a value follows exactly at the largest definition level gives the entries that were added |
| Columns.ColumnWriter.AddNull | src/cstable/ColumnWriter.cc:52-58 | Both levels are appended, and no value |
| Columns.ColumnWriter.AddDatum | src/cstable/UInt64ColumnWriter.cc:32-40 | Both levels and the value are appended |
| Columns.ColumnReader.Next | src/cstable/UInt64ColumnReader.cc:39-57 | The next entry is returned, with its value read exactly when its definition level is the largest, and the rest is left |
| Columns.ColumnReader.NextRepetitionLevel | src/cstable/ColumnReader.h:54-56 | The repetition level of the next entry, 0 behind the last one |
| Columns.ColumnReader.EofReached | src/cstable/ColumnReader.h:58-60 | True if and only if no entry is left |
| Materializer.ColumnState.FetchIfNotPending | src/cstable/RecordMaterializer.cc:272-279 | Fetching ahead loses and repeats no entry, and is only ever done when one is left |
| Materializer.ColumnState.Consume | src/cstable/RecordMaterializer.cc:281-283 | The entry fetched ahead is gone |
| Materializer.ColumnState.Load | src/cstable/RecordMaterializer.cc:57-91 | All entries up to the next record start are inserted one after the other and no others; the number of objects made up is the specified one |
| Materializer.ColumnState.Skip | src/cstable/RecordMaterializer.cc:37-55 | All entries up to the next record start are passed |
| Materializer.ColumnState.BumpInPlace | src/cstable/RecordMaterializer.cc:66-73 | The element number of the repeated level is increased, the deeper ones restart at 0 |
| Materializer.InsertValue | src/cstable/RecordMaterializer.cc:131-219 | The value becomes a new child of the parents found or created at their element numbers |
| Materializer.InsertNull | src/cstable/RecordMaterializer.cc:221-270 | The parents are found or created down to the first one that the definition level does not define |
| Materializer.RecordMaterializer.constructor | src/cstable/RecordMaterializer.cc:16-29 | The open columns are exactly the leaves of the schema that the table has and, unless none was asked for, that were asked for |
| Materializer.RecordMaterializer.CreateColumns | src/cstable/RecordMaterializer.cc:93-129 | Opens exactly the chosen leaves below a field, with the parents and levels of their paths |
| Assembly.LoadElem | src/cstable/RecordMaterializer.cc:57-91 | The entries of one element of a field change that element only, and complete it |
| Assembly.LoadOcc | src/cstable/RecordMaterializer.cc:57-91 | The entries of all elements of a field complete them one after the other, and no child with another id changes |
| Assembly.Focus | src/cstable/RecordMaterializer.cc:131-170 | While the entries stay inside one element, inserting them into the record is inserting them into that element |
| ScanOfRecords.WithinRecord | src/csql/CSTableScan.cc:105-242 | COUNT and SUM over one column of one record, as the scan hands them out, computed from the stripes that the shredder wrote, are the number of the non-null leaf values of that record and their sum, with the type of the last number, or NULL without one |
| ScanOfRecords.OverTable | src/csql/CSTableScan.cc:273-289 | The same over all records of a table |
| ScanOfRecords.RecordsOfStream | src/csql/CSTableScan.cc:99-100 | The stripe of every column has as many record starts as there are records, and splits at them into the records' blocks |
| TableScan.CSTableScan.Scan | src/csql/CSTableScan.cc:90-289 | For any columns of any depth with the same number of records: the scan ends; AGGREGATE_ALL gives one row that holds for every item the aggregate over its whole column, WITHIN_RECORD_FLAT one row per record with the aggregates over that record's entries, WITHIN_RECORD_DEEP one row per step over exactly the entries fetched in that step; it stops early exactly when the receiver says so, and otherwise all stripes are drained |
| TableScan.StepKeepsLock | src/csql/CSTableScan.cc:99-191 | At every loop head all columns have passed the same number of record starts, the fetch level is the largest next repetition level, it is 0 exactly between records, and the number of remaining entries has decreased |
| TableScan.NothingExhausted | src/csql/CSTableScan.cc:99-100 | Between records, while some are left, no column is exhausted, so every column can be read |
| TableScan.StepInRecord | src/csql/CSTableScan.cc:105-191 | What a step takes from a column belongs to the record under way; at level 0 it completes exactly the next record |
| TableScan.ProgressDone | src/csql/CSTableScan.cc:99-100 | When all records are counted every stripe is drained, and all its entries have been accumulated |
| TableScan.OneStepMore | src/csql/CSTableScan.cc:105-191 | The columns and the level after a number of steps, and so what the next step fetches, at most one entry of every column, are determined by the stripes |
| TableScan.CSTableScan.Fetch | src/csql/CSTableScan.cc:105-186 | Every column whose next level is not below the fetch level takes one entry, the others keep theirs; the next level is the largest one ahead |
| TableScan.CSTableScan.Step | src/csql/CSTableScan.cc:105-214 | After the step every aggregate has the entries taken so far from its column, each once; a column that took none is seen as NULL or not at all |
| TableScan.CSTableScan.AccumulateRow | src/csql/CSTableScan.cc:205-214 | Exactly the items whose column repeats at the select level or deeper accumulate the cell of their column |
| TableScan.CSTableScan.Emit | src/csql/CSTableScan.cc:226-240 | The row holds the results over the entries since the last one, which are then forgotten |
| TableScan.CSTableScan.Clear | src/csql/CSTableScan.cc:266-270 | Cells of columns that repeat at the level or deeper are NULL |
| Aggregates.FoldMeans | src/csql/expressions/aggregate.cc:20-98 | Accumulating any values adds the number of the non-null ones to COUNT and their sum to the value of SUM |
| Aggregates.GetMeans | src/csql/expressions/aggregate.cc:20-116 | What is handed out over any values: COUNT is the number of the non-null ones; SUM is NULL without a number, the sum as a floating point number if the last number was one, and otherwise the sum truncated to an integer |
| Aggregates.SumOfFloats | src/csql/expressions/aggregate.cc:72-116 | SUM over floating point numbers and nulls is NULL if there is none and otherwise their sum as a floating point number |
| Aggregates.TruncateDropsFraction | src/csql/expressions/aggregate.cc:104-106 | Truncation drops the fraction, towards zero |
| Aggregates.SumOfIntegers | src/csql/expressions/aggregate.cc:72-116 | SUM over integers and nulls is NULL if there is no integer and otherwise their exact sum as an integer |
| GroupByMerge.ReturnsCentralResult | src/csql/runtime/GroupByMerge.cc:46-116 | In every interleaving of spawning, accumulating, merging and exiting that ends with a result: no shard failed, the groups are those of one GROUP BY over all shards' rows, and what is handed out for each is the COUNT over all its rows and the SUM over them, as a floating point number also over integers and over nothing |
| GroupByMerge.RaisesShardErrors | src/csql/runtime/GroupByMerge.cc:100-106 | If it ends with an error instead, some shard failed; the messages are those of the failed shards, each as often as it occurred, and none is lost |
| GroupByMerge.NextKeepsInv | src/csql/runtime/GroupByMerge.cc:56-98 | Every step keeps: one more running task than live ones and never more than the limit, the semaphore counts the tasks that have not merged, the groups are the merge of exactly the tasks that have, and so are the errors |
| GroupByMerge.RunKeepsInv | src/csql/runtime/ExecutionContext.cc:49-72 | The invariant holds in every reachable state |
| GroupByMerge.NeverStuck | src/csql/runtime/ExecutionContext.cc:49-72 | With room for two tasks no reachable state that has not ended is stuck |
| GroupByMerge.StuckWithoutRoom | src/csql/runtime/ExecutionContext.cc:49-54 | With room for one task the very first step waits forever |
| GroupByMerge.RunsEnd | src/csql/runtime/GroupByMerge.cc:95-98 | No run is longer than a bound fixed by the number of shards, and with room for two tasks a run that cannot go on has returned or raised, with all tasks gone |
| GroupByMerge.MergedIsCentral | src/csql/runtime/GroupBy.cc:135-154 | Merging the groupings of all shards in any order agrees with the grouping of all rows |
| GroupBy.GroupByExpression.NextRow | src/csql/runtime/GroupBy.cc:156-178 | If the groups were the grouping of some rows, they are the grouping of those rows and this one |
| GroupBy.GroupByExpression.AccumulateRows | src/csql/runtime/GroupBy.cc:94-97 | From no groups on, the groups become the grouping of the rows: exactly their keys, and for every key and aggregate the scratchpad over the arguments of that key's rows |
| GroupBy.GroupByExpression.MergeResult | src/csql/runtime/GroupBy.cc:135-154 | Keys of either side are kept; a new key starts from fresh scratchpads; every scratchpad of the source is merged once |
| GroupCodec.DecodeEncode | src/csql/runtime/GroupBy.cc:193-231 | Decoding what was encoded gives the same keys and aggregate states, for every grouping and every order in which the map is written |
| GroupCodec.OtherSelectsRefused | src/csql/runtime/GroupBy.cc:212-217 | Bytes written for another number of aggregates are refused, and the groups that were there stay |
| GroupCodec.AccumulateCached | src/csql/runtime/GroupBy.cc:68-109 | Grouping through the cache gives the grouping of the rows whether there was no file, a file of another select list or the file of this one, and the file that is left is good for the next time |
| GroupCodec.Codec.Encode | src/csql/runtime/GroupBy.cc:193-206 | All groups are written once, behind their number and that of the aggregates |
| GroupCodec.Codec.DecodeFrom | src/csql/runtime/GroupBy.cc:208-231 | Decoding succeeds, refuses or raises as specified, and only changes the groups when it does not refuse |
| GroupCodec.StateRoundTrip | src/csql/expressions/aggregate.cc:136-146 | A saved scratchpad is loaded as itself, in front of whatever follows |
| GroupCodec.KeyRoundTrip | src/stx/io/inputstream.cc:165-174 | A key written with its length is read back, in front of whatever follows |
| TableFile.VarUIntBack | src/stx/io/inputstream.cc:137-154 | A number of any size written seven bits at a time is read back, in front of whatever follows |
| TableFile.AppendVarUInt | src/stx/io/outputstream.cc:97-107 | The loop writes exactly those bytes |
| Precedence.Parses | src/csql/parser/parser.cc:81-96 | Every operator tree over literals, dotted names, calls and negations, written with only the parentheses that the levels require, is parsed as exactly that tree, and the parser stops at the first operator it must refuse |
| Precedence.Spine | src/csql/parser/parser.cc:209-276 | A left-leaning chain of operators is taken operator by operator without any parentheses |
| Precedence.DroppedParenthesesRegroup | src/csql/parser/parser.cc:832-1084 | The parentheses are required: without them around a right operand the text is parsed as another tree, which is given |
| Precedence.MinusTakesAll | src/csql/parser/parser.cc:111-121 | A prefix minus takes the whole expression behind it as its operand, however its operators bind |
| SqlParser.ExprStopsBeforeEof | src/csql/parser/parser.cc:81-96 | On every token list with a single end marker, parsing an expression ends with an error or with the marker still ahead |
| SqlParser.ArgsStopBeforeEof | src/csql/parser/parser.cc:185-197 | The same for argument lists |
| SqlParser.Parser.ParseExpr | src/csql/parser/parser.cc:81-96 | The cursor is left exactly behind what the grammar function reads, or there is an error exactly where it has one |
| SqlParser.Parser.BinaryExpr | src/csql/parser/parser.cc:209-276 | Either the operator is refused and the cursor stays, or it is taken with its right operand and the rest of the chain is unchanged |
| SqlParser.Parser.UnaryExpr | src/csql/parser/parser.cc:98-170 | The same for operands |
| SqlParser.Parser.CallExpr | src/csql/parser/parser.cc:172-207 | The same for calls, with WITHIN RECORD |
| SqlParser.Parser.ConsumeToken | src/csql/parser/parser.h:126-130 | The cursor moves by one token and never off the end marker |
| SqlParser.Parser.ConsumeIf | src/csql/parser/parser.h:132-139 | The cursor moves if and only if the token is the expected one |
| SqlParser.Parser.Lookahead | src/csql/parser/parser.h:192-195 | True if and only if the token is there, also behind the end of the list |
| SqlStatement.ParseQuery | src/csql/parser/parser.cc:20-61 | Every query text is read to its end or refused, there are no more statements than tokens, and without DRAW the statements are those of the grammar functions |
| StatementText.SelectIsRead | src/csql/parser/parser.cc:305-369 | Every SELECT written out clause by clause, with all combinations of clauses, is read as itself, up to its semicolon or the end |
| StatementText.QueryIsRead | src/csql/parser/parser.cc:41-61 | Every list of such statements is read as that list |
| StatementText.NoFromNeedsSemicolon | src/csql/parser/parser.cc:329-332 | A SELECT without FROM is accepted if and only if a semicolon follows its list |
| StatementText.EmptyClauseIff | src/csql/parser/parser.cc:691-699 | On every token list, WHERE or HAVING is accepted with a missing expression exactly if its keyword is there and nothing but parentheses around nothing, or no start of an expression, is behind it |
| StatementText.MissingIff | src/csql/parser/parser.cc:81-170 | Parsing an expression finds none exactly where the tokens start none |
| StatementText.EmptyFilterIsRead | src/csql/parser/parser.cc:691-699 | An instance: a statement that ends with WHERE is accepted |
| StatementText.EmptyKeyIff | src/csql/parser/parser.cc:701-721 | Of the keys of a grouping that is accepted, key k is missing exactly if nothing starts behind BY or the k-th comma |
| StatementText.EmptySortIff | src/csql/parser/parser.cc:760-783 | The same for the expressions to sort by |
| StatementText.EmptyKeysAreRead | src/csql/parser/parser.cc:701-783 | An instance: `SELECT * FROM t GROUP BY ORDER BY` is accepted |
| StatementText.ItemIsOne | src/csql/parser/parser.cc:716-718 | Item k of any list is what is read behind the k-th comma |
| StatementText.ListIsRead | src/csql/parser/parser.cc:316-326 | A list with commas between its items is read item by item, for any items that are read one at a time |
| SqlStatement.ReadStatement | src/csql/parser/parser.cc:278-303 | A statement takes at least one token and stops before the end marker |
| SqlStatement.SelectStatement | src/csql/parser/parser.cc:305-369 | The cursor is left behind what the grammar function reads |
| SqlStatement.SelectSublist | src/csql/parser/parser.cc:648-674 | The same for one item, with `table.*` and aliases with and without AS |
| SqlStatement.FromClause | src/csql/parser/parser.cc:676-689 | The same for the table list |
| SqlStatement.GroupByClause | src/csql/parser/parser.cc:701-721 | The same for GROUP BY and GROUP OVER |
| SqlStatement.OrderByClause | src/csql/parser/parser.cc:760-783 | The same for the sort list |
| SqlStatement.LimitClause | src/csql/parser/parser.cc:785-806 | The same for LIMIT and OFFSET |
| SqlStatement.TableName | src/csql/parser/parser.cc:808-830 | The same for dotted table names |
| SqlStatement.DrawStatement | src/csql/parser/parser.cc:427-516 | Reading a chart ends, takes at least one token and never passes the end marker |
| SqlTokenizer.TokenizeQuery | src/csql/parser/tokenize.cc:17-599 | The method gives the tokens of the token functions; what these make of any spelling is in SqlSpelling.TextIsRead |
| SqlSpelling.TextIsRead | src/csql/parser/tokenize.cc:17-599 | Any text made of spellings of tokens, with any white space and comments between them, is tokenized to exactly those tokens, as long as no spelling runs on into the next character: keywords in any case, names plain or quoted, numbers, quoted texts with escaped quotes, and all symbols. The table of spellings is independent of the tokenizer |
| SqlSpelling.SymbolIsRead | src/csql/parser/tokenize.cc:40-228 | Every symbol is read from its one or two characters in front of anything that does not extend it |
| SqlSpelling.WordIsRead | src/csql/parser/tokenize.cc:230-597 | A word up to any delimiter is the keyword that it is in capitals, or else a name |
| SqlSpelling.ReservedIff | src/csql/parser/tokenize.cc:272-583 | The keywords are exactly the listed words |
| SqlSpelling.EnclosedIsRead | src/csql/parser/tokenize.cc:89-126 | Text in any of the three quotes is taken up to the first quote that is not escaped |
| SqlSpelling.NumeralIsRead | src/csql/parser/tokenize.cc:72-87 | Digits and points behind a first digit are one number |
| SqlSpelling.BlankIsSkipped | src/csql/parser/tokenize.cc:26-34 | White space and comments to the end of a line give no token |
| SqlSpelling.SpacedWrites | src/csql/parser/tokenize.cc:17-599 | Spellings with a space in front of each never run on |
| SqlQuery.TextMeansAnswer | src/csql/runtime/queryplanbuilder.cc:31-83 | From the characters of a SELECT statement, in any layout, to what its plan puts out: the query is read as that statement, it has a plan if and only if its parts admit one, and the plan puts out the rows that the statement asks for |
| SqlQuery.TextIsQuery | src/csql/parser/parser.cc:20-61 | Any text that spells SELECT statements with semicolons between them is read as those statements |
| SqlQuery.OperatorCalls | src/csql/runtime/queryplanbuilder.cc:983-1034 | Every operator, by its characters, between two operands builds the call of its function on the two, in their order |
| SqlQuery.TwoOperatorsGroup | src/csql/parser/parser.h:38-53 | Two operators between three operands group as the table of levels in the header says, and a second one of the same level comes behind the first, except for the circumflex |
| SqlQuery.PrefixTakesAll | src/csql/parser/parser.cc:98-121 | NOT, the exclamation mark and the minus negate the whole expression behind them, against that table |
| SqlTokenizer.TokensNotEof | src/csql/parser/tokenize.cc:17-599 | The tokenizer never produces the end marker |
| SqlText.TokensWord | src/csql/parser/tokenize.cc:251-270 | A word that stops at a separator is one token, a keyword in any case or an identifier |
| SqlText.TokensQuoted | src/csql/parser/tokenize.cc:107-126 | A quoted text without the quote, and without an odd number of backslashes at its end, is one token holding it |
| SqlTokenizer.SkipQuoted | src/csql/parser/tokenize.cc:107-121 | A quote ends the text unless an odd number of backslashes was counted before it |
| StatementPlan.TextToPlan | src/csql/runtime/queryplanbuilder.cc:31-83 | From text to plan: the statement is read as itself, its tree is one the builder takes, and its plan has the limit outside the order outside the grouping, and scans with the strategies for their places. With a wildcard there is one table, and it is known. If no two wildcards of the list are neighbours, the plan puts out one column for every item and all columns of the table for every wildcard, and sorts by columns that exist |
| PlanMeaning.PlanMeansStatement | src/csql/runtime/queryplanbuilder.cc:31-83 | The plan of any statement puts out the rows that the statement asks for: the rows of its table under the scan its calls need, those that its condition keeps, grouped by the values of its keys, with the values of its items, sorted by the columns and directions of its order, cut to its limit and offset; for any tables, functions, aggregates and orders, and stated over expressions as they are read |
| PlanMeaning.NodeValue | src/csql/parser/parser.cc:81-276 | The tree of an expression has the value of the expression, outside and inside of aggregates |
| PlanMeaning.GroupingMeansSame | src/csql/runtime/queryplanbuilder.cc:446-505 | A grouping over the rows of its child has the groups and values of the statement over the rows of the table: every key and every item, by what it was before the split |
| PlanMeaning.GroupingAsks | src/csql/runtime/queryplanbuilder.cc:637-681 | The scan below a grouping has to aggregate within records if and only if the list or a key needs the records of rows |
| PlanMeaning.SortByMeans | src/csql/runtime/queryplanbuilder.cc:772-822 | The columns to sort by are those named by the order, or columns appended for it, in its order and with its directions |
| PlanMeaning.PreparedStands | src/csql/runtime/queryplanbuilder.cc:360-444 | A prepared list stands for the items of the statement in their order, with the columns of the table for a wildcard, and has their names |
| PlanExistence.PlanExistsIff | src/csql/runtime/queryplanbuilder.cc:31-83 | A statement has a plan if and only if its wildcards have one known table, its limit and offset are numbers that fit, its sort columns can be found, it has one table and no HAVING or window without WHERE, and its conditions, keys and items can be built and aggregate only where they may |
| PlanExistence.CanBuildIff | src/csql/runtime/queryplanbuilder.cc:983-1062 | A tree can be built if and only if its expression can |
| StatementPlan.ParsedIsStatement | src/csql/parser/parser.cc:305-369 | What the parser reads from any tokens has at most one clause of each kind, its tables behind the list, and no clause without tables; it is a tree without null pointers if and only if no expression is missing in it |
| StatementPlan.OutermostStage | src/csql/runtime/queryplanbuilder.cc:48-66 | The outermost node is the limit, with its numbers, if there is one, else the order, unless building raises |
| StatementPlan.ListPrepared | src/csql/runtime/queryplanbuilder.cc:360-444 | For every select list: preparing it raises if and only if it has a wildcard and not just one table, that is known; a wildcard is left over if and only if two are neighbours, and otherwise there is a column for every item and all columns of the table for every wildcard |
| StatementPlan.WildcardExpanded | src/csql/runtime/queryplanbuilder.cc:360-420 | `SELECT *` has the columns of its table; with several tables or an unknown one building raises |
| PlanBuilder.BuildEndsIff | src/csql/runtime/queryplanbuilder.cc:31-83 | Building ends, in at most five steps, if and only if the statement that is left behind LIMIT and ORDER BY, with its wildcards expanded and its columns named, is not a grouping that can be built and has an aggregate nested in a call WITHIN RECORD; otherwise no number of steps is enough |
| PlanLimits.NestedCallNeverEnds | src/csql/runtime/queryplanbuilder.cc:446-505 | `SELECT f(g(x)) WITHIN RECORD FROM t` with an aggregate g is such a statement, for all names |
| PlanLimits.AliasStopsNesting | src/csql/runtime/queryplanbuilder.cc:786-812 | `SELECT f FROM t ORDER BY f(g(x)) WITHIN RECORD` is not: the sort column is taken for the column named f |
| PlanClauses.HavingNeedsWhere | src/csql/runtime/queryplanbuilder.cc:885-895 | A statement with HAVING or GROUP OVER TIMEWINDOW and without WHERE has no plan, grouped, sorted and limited or not |
| PlanClauses.HavingIsIgnored | src/csql/runtime/queryplanbuilder.cc:885-912 | Behind WHERE, any HAVING gives the same plan as any other and as none, grouped, sorted and limited or not |
| PlanClauses.WindowIsIgnored | src/csql/runtime/queryplanbuilder.cc:55-64 | Behind WHERE, GROUP OVER TIMEWINDOW gives the plan of the statement that is not grouped |
| PlanClauses.SortNeedsToken | src/csql/runtime/queryplanbuilder.cc:786-798 | For every statement with ORDER BY and without LIMIT: the order cannot be built if and only if its list cannot be prepared, or some column of the list has a name and some expression to sort by is missing, an operator, a prefix minus or NOT |
| PlanClauses.PreparedNames | src/csql/runtime/queryplanbuilder.cc:422-444 | A prepared list has a column with a name exactly if it had an item that is no wildcard, or its table has columns |
| PlanClauses.TwoWildcardsShiftSort | src/csql/runtime/queryplanbuilder.cc:772-835 | `SELECT t.*, t.* FROM t ORDER BY a`, with a the first of at least two columns of t: the scan has all columns twice, but rows are cut to one more than the columns of t and sorted by the second column |
| PlanLimits.FoundColumnsAddNothing | src/csql/runtime/queryplanbuilder.cc:786-812 | Sort columns that have the name of a column of the list add nothing to it |
| PlanLimits.ColumnIsItsAlias | src/csql/runtime/queryplanbuilder.cc:422-444 | A selected column is given its own name, so sorting by it finds it |
| PlanBuilder.GroupDescends | src/csql/runtime/queryplanbuilder.cc:446-505 | The child of a grouping has no GROUP BY or ORDER BY; it is a leaf or an error unless an aggregate is nested in a call WITHIN RECORD, and then it is a grouping that can be built and comes back again |
| PlanBuilder.PlanShape | src/csql/runtime/queryplanbuilder.cc:31-83 | Every plan of a statement without such nesting has the limit outside the order outside the grouping outside the leaf; its scan aggregates deeply within records only below a grouping, flat only elsewhere, and never over all records. If no two wildcards of the list are neighbours it has as many output columns as the list stands for, and sort columns inside the child |
| PlanBuilder.PreparedStatement | src/csql/runtime/queryplanbuilder.cc:36-44 | Expanding wildcards and naming columns keeps every clause, and every aggregate of the list |
| PlanPrepare.WildcardsExpanded | src/csql/runtime/queryplanbuilder.cc:378-419 | Any list: the columns of the table come last, once for every wildcard that is taken out, the rest is what erasing with a skipped neighbour leaves, and a wildcard is left over if and only if two of them are neighbours |
| PlanPrepare.PreparedIff | src/csql/runtime/queryplanbuilder.cc:36-44 | Preparing any statement with tables raises if and only if there is a wildcard and not just one table, that is known; the columns are then counted as above |
| PlanPrepare.OneWildcard | src/csql/runtime/queryplanbuilder.cc:378-419 | A wildcard at any place of a list is replaced by the columns of the table, which come last |
| PlanPrepare.WildcardPassedOver | src/csql/runtime/queryplanbuilder.cc:378-419 | An instance: of two wildcards beside each other the second is not expanded |
| PlanPrepare.PreparedWildcard | src/csql/runtime/queryplanbuilder.cc:378-419 | `SELECT *` becomes the columns of its table in their order, and fails if and only if there are several tables or it is not known |
| PlanPrepare.PreparedWithoutWildcard | src/csql/runtime/queryplanbuilder.cc:360-444 | Without a wildcard, preparing names the columns and does nothing else |
| PlanPrepare.ExpandColumns | src/csql/runtime/queryplanbuilder.cc:360-420 | The loop over the list that it changes expands as specified, or raises |
| PlanPrepare.AssignExplicitColumnNames | src/csql/runtime/queryplanbuilder.cc:422-444 | Every column without a name gets one, and no other is changed |
| PlanPrepare.Prepare | src/csql/runtime/queryplanbuilder.cc:36-44 | Both in this order |
| PlanStages.RewriteInherits | src/csql/runtime/queryplanbuilder.cc:629-705 | The child's list holds an aggregate if and only if the original had one nested in a call WITHIN RECORD |
| PlanBuilder.LimitDescends | src/csql/runtime/queryplanbuilder.cc:707-761 | The child of a limit is the statement without its LIMIT and with everything else |
| PlanBuilder.OrderDescends | src/csql/runtime/queryplanbuilder.cc:763-835 | The child of an order has no ORDER BY, and has every column that is sorted by |
| PlanBuilder.QueryPlanBuilder.Build | src/csql/runtime/queryplanbuilder.cc:31-83 | Building a statement without such nesting ends, with the specified plan or an exception |
| PlanBuilder.QueryPlanBuilder.BuildStage | src/csql/runtime/queryplanbuilder.cc:46-82 | The stages are tried in this order, and a statement that is none of them is an error |
| PlanBuilder.QueryPlanBuilder.BuildLimitClause | src/csql/runtime/queryplanbuilder.cc:707-761 | Limit, offset and child as specified, or an error for anything but numbers that fit |
| PlanBuilder.QueryPlanBuilder.BuildSorts | src/csql/runtime/queryplanbuilder.cc:782-822 | Every sort column is found by its name or appended to the list |
| PlanBuilder.QueryPlanBuilder.BuildGroupBy | src/csql/runtime/queryplanbuilder.cc:446-505 | The method gives the stage of the function, or its error; what that stage means is in PlanMeaning.GroupingMeansSame |
| SelectList.RewriteMeansSame | src/csql/runtime/queryplanbuilder.cc:629-705 | For any table and any operators, aggregates and literals: the rewritten expression evaluated over the rows of the child select list has the value of the original over the source rows, where a column inside an aggregate has its own value and any other one its repeated value, and still has it when the list has grown |
| SelectList.FlatIsOwn | src/csql/runtime/queryplanbuilder.cc:650-658 | On rows without repeated fields the two values of a column are the same |
| SelectList.RewriteResolves | src/csql/runtime/queryplanbuilder.cc:629-705 | Every reference in the rewritten expression has an index inside the child list, and no column name or call WITHIN RECORD is left |
| SelectList.ColumnsOnceIff | src/csql/runtime/queryplanbuilder.cc:637-681 | No column is in the list twice if and only if none was before and no call of repeat_value WITHIN RECORD asks for an entry that the list had or that the tree has pushed before the call |
| SelectList.RewriteKeepsColumnsOnce | src/csql/runtime/queryplanbuilder.cc:652-683 | So none is if the query does not call repeat_value |
| SelectList.RepeatGivesColumnTwice | src/csql/runtime/queryplanbuilder.cc:637-650 | An instance: a column, and then repeat_value of it |
| SelectList.Builder.BuildInternalSelectList | src/csql/runtime/queryplanbuilder.cc:629-705 | The method rewrites the node and grows the list as the function does, whose meaning is in RewriteMeansSame |
| SelectList.Builder.FindColumn | src/csql/runtime/queryplanbuilder.cc:660-674 | The first entry that compares equal, or the end of the list |
| AstNode.CompareIff | src/csql/parser/astnode.cc:39-60 | Two nodes compare equal if and only if their copies are equal, so identifiers do not matter |
| AstNode.RemoveChildrenByType | src/csql/parser/astnode.cc:85-91 | The loop removes what the specification removes, passing over the child behind a removed one |
| AstNode.ErasedIff | src/csql/parser/astnode.cc:85-91 | A child of the kind is left over if and only if two neighbours are of that kind |
| AstNode.ErasedKeepsOthers | src/csql/parser/astnode.cc:85-91 | No other child is removed or moved |
| RemoteRoundTrip.Arrives | src/csql/runtime/queryplanbuilder.cc:983-1172 | Printing a sendable expression, tokenizing, parsing and building it again gives the same expression, with column references resolved by name |
| RemoteAggregate.SendAndExecute | src/csql/runtime/runtime.cc:108-214 | A whole aggregation sent as text arrives: table, strategy, both select lists with their column names, group expressions and condition |
| RemoteRoundTrip.SqlTokens | src/csql/qtree/CallExpressionNode.cc:39-49 | The tokens of the printed text are those of the expression's tree, in front of any text that can follow |
| RemoteRoundTrip.BuildGivesArrived | src/csql/runtime/queryplanbuilder.cc:983-1172 | Building that tree gives the expression |
| RemoteLimits.LiteralArrivesIff | src/csql/svalue.cc:351-381 | A literal arrives as itself if and only if it is a non-negative integer, a boolean, or a text without quotes whose trailing backslashes are even in number |
| RemoteLimits.CallArrivesIff | src/csql/qtree/CallExpressionNode.cc:39-49 | A call of sendable arguments arrives as itself if and only if it has an argument and its name is neither a keyword nor `if` nor `subquery_column` |
| RemoteLimits.ColumnArrivesIff | src/csql/qtree/ColumnReferenceNode.cc:57-63 | A column whose name is words with dots between them arrives under its name if and only if none of the words is a keyword |
| RemoteLimits.KeywordCallFails | src/csql/parser/tokenize.cc:272-595 | A call whose name is a keyword never arrives as that call |
| RemoteLimits.EmptyCallFails | src/csql/parser/parser.cc:185-199 | A call without arguments is not built on the other side |
| RemoteLimits.SpecialCallFails | src/csql/parser/parser.cc:176-182 | A call named `if` or `subquery_column` does not arrive as a call |
| RemoteLimits.NegativeBecomesCall | src/csql/svalue.cc:351-381 | A negative integer arrives as a negation call |
| RemoteLimits.NullBecomesColumn | src/csql/svalue.cc:351-381 | NULL arrives as a column of that name |
| RemoteLimits.SecondTrip | src/csql/qtree/ColumnReferenceNode.cc:57-63 | A column index that has arrived once arrives as a number when it is sent again |
| RemoteLimits.PlaceholderIsFilled | src/csql/qtree/IfExpressionNode.cc:51-57 | An if whose condition is a column with the name of a placeholder arrives with the first branch as its condition |
| RemoteSql.ParseValueExpression | src/csql/parser/parser.cc:63-79 | The text is received as specified, or refused exactly where that is |
| RemoteAggregate.RemoteAggregateParams | src/csql/qtree/RemoteAggregateNode.cc:28-58 | The message holds the text of every expression in its place |
| RemoteAggregate.ExecuteAggregate | src/csql/runtime/runtime.cc:108-214 | Every text is received in its place, and one that cannot be received fails the whole |
| StringUtil.ReplacedFirst | src/stx/stringutil.cc:113-126 | Replacing splits at the first occurrence and goes on behind it; without an occurrence the text stays |
| StringUtil.ReplaceAll | src/stx/stringutil.cc:113-126 | The in-place loop gives that text, also where a replacement contains the pattern |
| StringUtil.Join | src/stx/stringutil.cc:149-161 | The parts with the separator between them |
| StringUtil.FormatTwo | src/stx/stringutil_impl.h:33-63 | Two values are put in place of $0 and $1, if the first holds no dollar sign |
| StringUtil.FormatThree | src/stx/stringutil_impl.h:33-63 | The same for three values, if none holds the placeholder of a later one |
| StringUtil.NumberRoundTrip | src/stx/stringutil.cc:35-68 | A number printed in decimal is read back |
| TableBytes.ReadFile | src/cstable/CSTableReader.cc:28-94 | Reading a file in which every column of a table has its body, in any order, gives that table and its number of records |
| TableBytes.WriteFile | src/cstable/CSTableBuilder.cc:380-384 | Every column of a table gets its body in the file once |
| TableBytes.DecodeColumn | src/cstable/ColumnReader.h:24-39 | Levels, number of values and values of a column of any type are read back from its regions, spare bytes behind the data or not |
| TableBytes.EncodeColumn | src/cstable/ColumnWriter.cc:37-50 | The body of a column has its levels packed, and its values in the encoding of its type |
| TableBytes.DataBack | src/cstable/StringColumnReader.cc:35-55 | All values of a column are read back, in front of spare bytes |
| TableBytes.ScalarBack | src/cstable/StringColumnWriter.cc:29-38 | A text behind its length, a number of four or eight bytes and one of variable length are read back, in front of whatever follows |
| StoredTable.StripeCanBeStored | src/cstable/CSTableBuilder.cc:204-254 | The column of a leaf over any conforming records has levels in range, values of its type, and as many of them as entries with the largest definition level |
| StoredTable.KindOfPath | src/cstable/CSTableBuilder.cc:51-113 | Every leaf has a column of its own type |
| TableFile.FileRoundTrip | src/cstable/CSTableReader.cc:28-65 | Reading a written file gives the number of records and every column's name, type, levels, offset and size, and at that offset the file holds the column's body |
| TableFile.BodiesInPlace | src/cstable/CSTableWriter.cc:52-89 | Bodies are disjoint and follow each other without a gap; each starts at its recorded offset |
| TableFile.BodyRoundTrip | src/cstable/ColumnReader.h:24-39 | Opening a body gives the number of values and the two level regions exactly, and a data region that begins with the written data, spare bytes behind it |
| TableLayout.FileStart | src/cstable/CSTableWriter.cc:25-56 | The first bytes of a file: its magic number, version 1, no flags, and the numbers of records and columns, each at its place |
| TableLayout.InfoLayout | src/cstable/CSTableWriter.cc:69-80 | Every part of the header of a column at its place |
| TableLayout.BodyLayout | src/cstable/ColumnWriter.cc:37-46 | Every part of the body of a column at its place |
| TableLayout.LeDigit | src/stx/util/binarymessagewriter.cc:44-66 | Byte i of a number is its digit i to the base 256 |
| TableLayout.VarUIntDigit | src/stx/io/outputstream.cc:97-107 | Byte i of a number of variable length is its digit i to the base 128, with the high bit on all bytes but the last |
| TableFile.InfoRoundTrip | src/cstable/CSTableReader.cc:47-62 | The description of a column is read back, in front of whatever follows |
| TableFile.ByNameOneMore | src/cstable/CSTableReader.cc:47-62 | Of two columns with the same name the first is kept |
| TableFile.CSTableWriter.Commit | src/cstable/CSTableWriter.cc:52-89 | The file is header, descriptions with the final offsets, and bodies |
| TableFile.CSTableReader.Open | src/cstable/CSTableReader.cc:28-65 | Opening succeeds on exactly the files with the magic number and version that are long enough, and then knows their columns by name |
| BitPack.EncodeAndDecode | src/stx/util/BitPackEncoder.cc:23-47 | Levels encoded and decoded are the same, and looking ahead behind the last one gives 0 |
| BitPack.BitPackDecoder.Fetch | src/stx/util/BitPackDecoder.cc:35-65 | The next value, kept or passed; behind the end looking ahead gives 0 |
| BitPack.BitPackEncoder.Encode | src/stx/util/BitPackEncoder.cc:23-33 | The value is appended to the stream; nothing if all values are 0 |
| BitPack.BitPackEncoder.Flush | src/stx/util/BitPackEncoder.cc:35-47 | The stream is filled up with zeros to a whole block and all of it is packed |
| BitPack.PackedAt | src/stx/util/BitPackDecoder.cc:35-65 | Block b of the packed stream is found at 16 bytes times bits times b |
| SHA1.Compute | src/stx/SHA1.cc:206-256 | For any data shorter than 2^31 bytes the bytes are the fold of the compression function over the padded data, its length in the last word only |
| SHA1.PaddingIsStandardIff | src/stx/SHA1.cc:240-250 | That padding is the one of section 4 of RFC 3174 if and only if the data is shorter than 2^29 bytes |
| SHA1.ComputeStandard | src/stx/SHA1.cc:206-256 | Below 2^29 bytes the digest is the one of RFC 3174 |
| SHA1Example.DigestOfMessage | src/stx/SHA1.cc:206-256 | The digest of the message abc is the one that section 7.3 of RFC 3174 gives for it |
| SHA1Example.RoundsAre | src/stx/SHA1.cc:153-204 | The states behind all eighty rounds on that message, as numbers |
| SHA1Example.ScheduleIs | src/stx/SHA1.cc:172-195 | The eighty words of its schedule, as numbers |
| SHA1.InnerHash | src/stx/SHA1.cc:153-204 | The in-place rounds are the compression function of section 6.1 of RFC 3174 over the first 16 words |
| SHA1.LoadTail | src/stx/SHA1.cc:225-239 | The last bytes and the end bit are put into the block as padding first would have put them |
| SHA1.LastBlock | src/stx/SHA1.cc:240-250 | A tail of fewer than 56 bytes shares its block with the length |
| SHA1.LastTwoBlocks | src/stx/SHA1.cc:240-250 | A longer tail needs one more block |
| SHA1.Output | src/stx/SHA1.cc:252-256 | The bytes are the words of the state, high byte first |
| Uri.DecodeEncode | src/stx/uri.cc:103-140 | Decoding gives back every encoded byte string |
| Uri.WritingIsDecoded | src/stx/uri.cc:103-140 | However the characters of a text are written, as they are, a space as a plus sign, or by two hexadecimal digits in capitals or small letters, decoding gives the text |
| Uri.OtherPercent | src/stx/uri.cc:108-118 | A percent sign in front of anything but two digits stands for itself, and raises with fewer than two characters behind it |
| Uri.EncodedIs | src/stx/uri.cc:16-101 | Exactly the listed characters are left as they are, and every other one is written by its two digits in capitals |
| Uri.QueryRoundTripIff | src/stx/uri.cc:374-415 | Parsing a built query string gives back the parameters if and only if no key is empty |
| Uri.ParseBuild | src/stx/uri.cc:374-415 | In general it gives back the parameters before the first empty key |
| Uri.EncodedIsClean | src/stx/uri.cc:16-101 | Encoded text has none of & = + $, and is empty only for an empty text |
| Uri.UrlEncode | src/stx/uri.cc:16-101 | Encodes character by character as specified |
| Uri.UrlDecode | src/stx/uri.cc:103-140 | Decodes as specified, or raises where fewer than two characters follow a percent sign |
| Uri.BuildQueryString | src/stx/uri.cc:400-415 | All pairs with & between them |
| Uri.ParseQueryString | src/stx/uri.cc:374-398 | Parses as specified, or raises where a part does not decode |
| Human.OrderDoesNotMatter | src/stx/human.cc:174-371 | Two columns with the same cells in another order, or with other repetitions, get the same type |
| Human.SeriesIsJoin | src/stx/human.cc:174-371 | The type found cell by cell is the join of the set of cell types |
| Human.DetectColumn | src/cstable/cstable.cc:41-46 | The loop over the rows gives that join |
| Human.DetectLimits | src/stx/human.cc:131-172 | No cell is ever detected as FLOAT, URL or CURRENCY, and an empty cell is an unsigned integer |
| Human.CellIs | src/stx/human.cc:131-172 | Every cell by its characters: unsigned if and only if all are digits, signed if and only if a minus is followed by digits, null and boolean for the listed words only, and otherwise a time, a text or binary data by what the two checks say |
| Human.IsNumber | src/stx/stringutil.cc:297-321 | Accepts exactly an optional minus and digits, and no decimal point |

## Left out

- StoreAndLoad: a column is decoded as a whole when it is opened; the code decodes it entry by entry.
- InsertValue: message objects grow in place; here a record is a value, and a child that is a scalar where an object belongs is treated as an object without children.
- CreateAll: creates the columns of a list of fields by recursion where the code has a loop.
- Scan: without WHERE, over columns that exist, with COUNT and SUM only; plain select items, scans without columns and the aggregates MEAN, MIN and MAX are not part of this model.
- AccumulateRow: a scratchpad is a value in an array; SUM over text or truth values, which raises, is not modelled.
- ReturnsCentralResult: sources are not nested, tasks that are ready are not delayed forever by the scheduler, and locks and condition variables are single steps of the state machine.
- SumOfIntegers: sums are exact numbers; the rounding of floating point numbers is left out.
- StateRoundTrip: the bytes of a floating point number are abstract; they are read back for the numbers that have them.
- VarUIntBack: numbers are not limited to 64 bits.
- BitPackDecoder.Fetch: how one block of 128 values is packed is the business of the simdcomp library, which is taken to be exact; the check of the end of the data, which is compiled out of the code, is kept.
- Arrives: decimal numbers and times, whose text goes through floating point formatting, are not sendable; that the conditions are also necessary is proved for literals, calls and columns named by words and dots; for column names with other characters it is not, and for placeholders inside `if` there is an instance.
- ParseQuery: what a DRAW statement holds is not modelled, only that it is read to its end or refused.
- DigestOfMessage: one message of the standard's examples.
- Build: other statements than SELECT, and statements in which an expression is missing, on which the code runs into a null pointer sooner or later; missing sort expressions are in SortNeedsToken.
- ExpandColumns: a wildcard that is not the last item makes the code read its list while the list may move in memory; the model reads the list as if it stayed in place.
- PlanMeansStatement: for statements with tables, without two wildcards beside each other and without an aggregate nested in a call WITHIN RECORD, whose plans the findings are about; calls, operators, orders and how rows fall into groups are parameters, and so are the rows that a scan delivers, which are the subject of `Scan`.
- DetectColumn: reading times and checking UTF-8 are parameters.
- Compute: data of 2^31 bytes and more, for which the code's loop counter overflows.
- CSV import, BITPACK and LEB128 hints for integer fields, and reading behind the last record.
- File, stream and network operations; `msg::MessageSchema` and `vm.cc` are not part of this model.
- Charts, HTTP endpoints, command line tools and formats for output.
- Joins and subqueries.
