# QuestDB asynchronous JIT filter and compiled INSERT, modelled in Dafny

This project models two pieces of QuestDB's SQL engine:

- **`AsyncJitFilteredRecordCursorFactory`** is the factory behind `WHERE` filters that run as JIT-compiled native code over page frames. The model covers:
  - how a `LIMIT` value becomes a scan order and a row budget, and which cursor gets them (`getCursor`, `toPlan`);
  - the 16-byte-per-slot bind-variable buffer the compiled filter reads (`prepareBindVarMemory`, `writeBindVarFunction`);
  - the per-frame reducer `filter`. It uses the interpreted filter when the frame has column tops, and the compiled filter otherwise;
  - the pre-touch column list built by the constructor, and the `followedLimitAdvice` and `supportsFilterStealing` flags.
- **`InsertOperationImpl`** is a compiled `INSERT`. Its table writer is absent at first. It is fetched and validated on the first `createMethod` (metadata version and table name), cached, reused, and then popped or closed. The model also covers:
  - the row list and how `execute` appends it to the writer in order;
  - the column-name list, which uses a shared empty sentinel.

Java `long`, `int`, `short`, `byte` and `char` are subset types of `int` (module `JavaTypes`). Where wrap-around matters, the model writes it out: `-Long.MIN_VALUE` is `Long.MIN_VALUE`.

| file | module | models |
|---|---|---|
| java_types.dfy | `JavaTypes` | Java integer widths, wrapping negation, narrowing, 32-bit halves of a `long` |
| results.dfy | `Results` | `Option`, `Result`, `Outcome` (a thrown exception is an `Err`/`Fail`) |
| limit_resolution.dfy | `LimitResolution` | order/limit resolution and cursor routing of `getCursor`/`toPlan`, as written and corrected |
| bind_vars.dfy | `BindVars` | the bind-variable buffer, its layout function `Encode`, a decoder, the serialising methods |
| filter_reducer.dfy | `FilterReducer` | the static `filter` reducer, the filter atom's acquire/release, the row list |
| jit_factory.dfy | `JitFilterFactory` | the factory object: configuration, lazily allocated negative-limit buffer, `getCursor`, `toPlan` |
| insert_operation.dfy | `Insert` | `InsertOperationImpl`, `InsertMethodImpl`, and the writer, writer source, context and column-name list they use |

The factory's `GetCursor` uses the corrected routing `SelectCursor`. The code as written is kept as `GetCursorAsWritten`; see "## Findings".

## Model

F = core/src/main/java/io/questdb/griffin/engine/table/AsyncJitFilteredRecordCursorFactory.java, I = core/src/main/java/io/questdb/griffin/engine/ops/InsertOperationImpl.java (the source column gives full paths).

| member | source | states |
|---|---|---|
| JavaTypes.Negate | core/src/main/java/io/questdb/griffin/engine/table/AsyncJitFilteredRecordCursorFactory.java:183 | Java `long` negation: the exact negation for every value except `Long.MIN_VALUE`, which negates to itself |
| LimitResolution.BaseOrder | core/src/main/java/io/questdb/griffin/engine/table/AsyncJitFilteredRecordCursorFactory.java:172 | the base order is descending exactly when the base factory scans backward |
| LimitResolution.Reverse | core/src/main/java/io/questdb/griffin/engine/table/AsyncJitFilteredRecordCursorFactory.java:182 | reversing an order always gives the other order |
| LimitResolution.ResolveLimit | core/src/main/java/io/questdb/griffin/engine/table/AsyncJitFilteredRecordCursorFactory.java:176-184 | the order stays the base order iff the limit is ≥ 0; a limit ≥ 0 is the budget; a negative limit above `MIN_VALUE` gives budget `-limit`; `MIN_VALUE` gives budget `MIN_VALUE` |
| LimitResolution.GetCursorAsWritten | core/src/main/java/io/questdb/griffin/engine/table/AsyncJitFilteredRecordCursorFactory.java:170-203 | no LIMIT function gives the forward cursor in base order with budget `MAX_VALUE`; a throwing LIMIT function is an error; a limit ≥ 0 gives the forward cursor in base order; a limit in (MIN+1, 0) fails the cap check at `limitLoPos`, or else opens the negative-limit cursor reversed with budget `-limit`; the two wrapping limits behave as in "## Findings" |
| LimitResolution.SelectCursor | core/src/main/java/io/questdb/griffin/engine/table/AsyncJitFilteredRecordCursorFactory.java:170-203 | corrected `getCursor`: an error iff the LIMIT function throws or the limit is negative with magnitude above the cap (then `LimitTooLarge(limitLoPos, max)`); the negative-limit cursor always gets the reversed order and a budget `-limit` in 1..max; the forward cursor always gets the base order, with the limit or `MAX_VALUE` |
| LimitResolution.SelectCursorAgreesAsWritten | core/src/main/java/io/questdb/griffin/engine/table/AsyncJitFilteredRecordCursorFactory.java:179-202 | the corrected routing equals the code as written on every LIMIT outcome except `MIN_VALUE` and `MIN_VALUE + 1` |
| LimitResolution.MinValueLimitSkipsCap | core/src/main/java/io/questdb/griffin/engine/table/AsyncJitFilteredRecordCursorFactory.java:183-197 | as written, LIMIT `MIN_VALUE` opens the negative-limit cursor with a negative budget; corrected, it fails the cap check |
| LimitResolution.MinPlusOneLimitScansEverythingReversed | core/src/main/java/io/questdb/griffin/engine/table/AsyncJitFilteredRecordCursorFactory.java:183-201 | as written, LIMIT `MIN_VALUE + 1` opens the forward cursor in reversed order with budget `MAX_VALUE`; corrected, it fails the cap check |
| LimitResolution.ToPlanSummary | core/src/main/java/io/questdb/griffin/engine/table/AsyncJitFilteredRecordCursorFactory.java:242-264 | a throwing or absent LIMIT function gives the base order and no `limit` attribute; otherwise the order of the resolved limit, and a `limit` attribute exactly when the budget is not `MAX_VALUE` |
| LimitResolution.ToPlanMatchesGetCursor | core/src/main/java/io/questdb/griffin/engine/table/AsyncJitFilteredRecordCursorFactory.java:170-203 | whenever `getCursor` succeeds, the plan shows the order it scans in, and shows its budget unless that is `MAX_VALUE` |
| JitFilterFactory.PreTouchColumnTypes | core/src/main/java/io/questdb/griffin/engine/table/AsyncJitFilteredRecordCursorFactory.java:99-106 | a pre-touch list exists iff pre-touch is enabled, and it is every column type in column order |
| JitFilterFactory.AsyncJitFilteredFactory.constructor | core/src/main/java/io/questdb/griffin/engine/table/AsyncJitFilteredRecordCursorFactory.java:71-121 | keeps the configuration, builds the pre-touch list, and starts with no negative-limit buffer |
| JitFilterFactory.AsyncJitFilteredFactory.FollowedLimitAdvice | core/src/main/java/io/questdb/griffin/engine/table/AsyncJitFilteredRecordCursorFactory.java:145-147 | true iff the factory has a LIMIT function |
| JitFilterFactory.AsyncJitFilteredFactory.SupportsFilterStealing | core/src/main/java/io/questdb/griffin/engine/table/AsyncJitFilteredRecordCursorFactory.java:228-230 | filter stealing is supported iff no LIMIT advice is followed |
| JitFilterFactory.AsyncJitFilteredFactory.GetCursor | core/src/main/java/io/questdb/griffin/engine/table/AsyncJitFilteredRecordCursorFactory.java:170-203 | returns the corrected routing; the negative-limit buffer exists whenever the negative-limit cursor is returned, is allocated only then, has capacity `maxNegativeLimit`, and once allocated is reused |
| JitFilterFactory.AsyncJitFilteredFactory.ToPlan | core/src/main/java/io/questdb/griffin/engine/table/AsyncJitFilteredRecordCursorFactory.java:237-267 | without a LIMIT function, or with one that throws, the plan shows the base order and no limit; a `limit` attribute is shown only with a LIMIT function and never as `MAX_VALUE`; whenever `GetCursor` opens a cursor, the plan shows that cursor's order, and its budget unless that is `MAX_VALUE` |
| BindVars.Encode | core/src/main/java/io/questdb/griffin/engine/table/AsyncJitFilteredRecordCursorFactory.java:130-136 | the buffer for n bind variables is 2n words, one two-word slot each |
| BindVars.FirstUnsupported | core/src/main/java/io/questdb/griffin/engine/table/AsyncJitFilteredRecordCursorFactory.java:132-135 | the first bind variable without an encoding; all before it have one |
| BindVars.SlotRoundTrip | core/src/main/java/io/questdb/griffin/engine/table/AsyncJitFilteredRecordCursorFactory.java:336-402 | each supported value is recovered from its type tag and its slot's two words: zero padding and the widened value for fixed-size types, 1/0 for BOOLEAN, the raw bits with the NaN filler in the upper half for FLOAT |
| BindVars.VarcharNullMarker | core/src/main/java/io/questdb/griffin/engine/table/AsyncJitFilteredRecordCursorFactory.java:393-401 | a VARCHAR slot's size word is -1 iff the value is NULL, and a NULL's pointer word is 0 |
| BindVars.EncodeSlotAt | core/src/main/java/io/questdb/griffin/engine/table/AsyncJitFilteredRecordCursorFactory.java:130-136 | bind variable i, in declaration order, occupies words 2i and 2i+1 (bytes 16i to 16i+15) |
| BindVars.EncodeRoundTrip | core/src/main/java/io/questdb/griffin/engine/table/AsyncJitFilteredRecordCursorFactory.java:336-402 | the whole buffer decodes, given the type tags, back to the bind values |
| BindVars.BindVarMemory.Truncate | core/src/main/java/io/questdb/griffin/engine/table/AsyncJitFilteredRecordCursorFactory.java:131 | empties the buffer: no words and no pending half |
| BindVars.BindVarMemory.PutLong | core/src/main/java/io/questdb/griffin/engine/table/AsyncJitFilteredRecordCursorFactory.java:339 | appends one word at an 8-byte-aligned offset and changes nothing else |
| BindVars.BindVarMemory.PutDouble | core/src/main/java/io/questdb/griffin/engine/table/AsyncJitFilteredRecordCursorFactory.java:391 | appends the `double`'s 64 raw bits as one word |
| BindVars.BindVarMemory.PutLongAt | core/src/main/java/io/questdb/griffin/engine/table/AsyncJitFilteredRecordCursorFactory.java:397 | overwrites one aligned word below the append offset in place and changes nothing else |
| BindVars.BindVarMemory.PutFloat | core/src/main/java/io/questdb/griffin/engine/table/AsyncJitFilteredRecordCursorFactory.java:375-376 | a first `float` leaves half a word pending; a second one completes the word with the first as its low half |
| BindVars.WriteBindVarFunction | core/src/main/java/io/questdb/griffin/engine/table/AsyncJitFilteredRecordCursorFactory.java:328-406 | a supported value appends exactly its slot; any other tag appends only the zero padding word and fails at position 0 with the message "unsupported bind variable type: " followed by the type's name |
| BindVars.PrepareBindVarMemory | core/src/main/java/io/questdb/griffin/engine/table/AsyncJitFilteredRecordCursorFactory.java:123-137 | succeeds iff every bind variable is supported; with none the buffer is untouched; otherwise the buffer becomes exactly `Encode` of the list, whatever it held before, with append offset 16n; on failure at the first unsupported index k it holds the k slots before it plus one padding word |
| FilterReducer.IsOwner | core/src/main/java/io/questdb/griffin/engine/table/AsyncJitFilteredRecordCursorFactory.java:290 | the reducer owns the task iff it is stealing from the task's own frame sequence |
| FilterReducer.Selection | core/src/main/java/io/questdb/griffin/engine/table/AsyncJitFilteredRecordCursorFactory.java:294-299 | the selected offsets are at most n, in [0, n), all accepted by the predicate |
| FilterReducer.SelectionAscending | core/src/main/java/io/questdb/griffin/engine/table/AsyncJitFilteredRecordCursorFactory.java:294-299 | the selected offsets are strictly ascending |
| FilterReducer.SelectionExactly | core/src/main/java/io/questdb/griffin/engine/table/AsyncJitFilteredRecordCursorFactory.java:294-299 | an offset is selected iff it is below the row count and the predicate accepts it |
| FilterReducer.FirstThrow | core/src/main/java/io/questdb/griffin/engine/table/AsyncJitFilteredRecordCursorFactory.java:294-296 | the first row on which the predicate throws, or none iff it throws on no row |
| FilterReducer.RowList.Clear | core/src/main/java/io/questdb/griffin/engine/table/AsyncJitFilteredRecordCursorFactory.java:286 | empties the list and keeps its memory |
| FilterReducer.RowList.Add | core/src/main/java/io/questdb/griffin/engine/table/AsyncJitFilteredRecordCursorFactory.java:297 | appends one offset to the contents |
| FilterReducer.RowList.SetPos | core/src/main/java/io/questdb/griffin/engine/table/AsyncJitFilteredRecordCursorFactory.java:322 | sets the list's length to the given count and keeps its memory |
| FilterReducer.FilterAtom.AcquireFilter | core/src/main/java/io/questdb/griffin/engine/table/AsyncJitFilteredRecordCursorFactory.java:291 | takes the free clone of the worker's slot, or the owner's dedicated slot, and records it as held |
| FilterReducer.FilterAtom.ReleaseFilter | core/src/main/java/io/questdb/griffin/engine/table/AsyncJitFilteredRecordCursorFactory.java:301-303 | frees exactly the given clone |
| FilterReducer.FilterAtom.CallCompiled | core/src/main/java/io/questdb/griffin/engine/table/AsyncJitFilteredRecordCursorFactory.java:312-321 | writes the compiled filter's offsets at the start of the row memory and returns their count |
| FilterReducer.Filter | core/src/main/java/io/questdb/griffin/engine/table/AsyncJitFilteredRecordCursorFactory.java:274-326 | with column tops: acquire then release of the one clone on every exit, no pre-touch, and the list holds exactly the accepted rows in order, or on a throw the accepted rows before it; without column tops: one compiled call with the bind-variable count, the frame row count and offset 0, the list holds exactly what it returned, then pre-touch; held clones are unchanged afterwards |
| Insert.InitTrace | core/src/main/java/io/questdb/griffin/engine/ops/InsertOperationImpl.java:119-124 | one `initContext` call per row, in insertion order |
| Insert.FirstFailingRow | core/src/main/java/io/questdb/griffin/engine/ops/InsertOperationImpl.java:119-124 | the first row whose `initContext` throws, or none iff none does |
| Insert.NameList.AddAll | core/src/main/java/io/questdb/griffin/engine/ops/InsertOperationImpl.java:44-49 | the shared sentinel refuses `addAll` and its names are left unchanged; any other list appends the names in order |
| Insert.InsertOperation.constructor | core/src/main/java/io/questdb/griffin/engine/ops/InsertOperationImpl.java:58-62 | no rows, no cached writer, no column names; the shared sentinel it is given is empty |
| Insert.InsertOperation.AddInsertRow | core/src/main/java/io/questdb/griffin/engine/ops/InsertOperationImpl.java:65-67 | appends the row to the list the insert method reads |
| Insert.InsertOperation.InitRows | core/src/main/java/io/questdb/griffin/engine/ops/InsertOperationImpl.java:119-124 | calls `initContext` on each row in order, up to and including the first that throws |
| Insert.Appends | core/src/main/java/io/questdb/griffin/engine/ops/InsertOperationImpl.java:140-144 | one append per row, in insertion order |
| Insert.InsertOperation.AffectedRowsCount | core/src/main/java/io/questdb/griffin/engine/ops/InsertOperationImpl.java:158-161 | the affected-rows count is the number of appends one execution makes, one per added row |
| Insert.InsertOperation.CreateMethod | core/src/main/java/io/questdb/griffin/engine/ops/InsertOperationImpl.java:70-92 | authorises with the table name and the current column list, then initialises the rows in order, before touching any writer; if either fails, the cached writer and the fetched writers are unchanged; a cached writer is reused without a fetch or re-validation; otherwise exactly one fetch of a fresh open writer, which is cached if its metadata version and table name match the compiled ones, and otherwise is closed (its only call), left uncached and reported as `WriterOutOfDate(tableName)`; success always returns the same insert method, holding an open, current writer |
| Insert.InsertOperation.Execute | core/src/main/java/io/questdb/griffin/engine/ops/InsertOperationImpl.java:99-106 | succeeds iff authorised, every row initialises, and a writer is cached or the table still matches; the error otherwise is the first failing step's; the context sees exactly one `authorizeInsert` with the table name and column list, then, if granted, `initContext` on each row in order up to and including the first that throws; a stale fetched writer ends closed, its only call; a fetch happens exactly once iff no writer was cached and authorisation and row initialisation succeeded; on success the writer's calls are, in this order, an append of every row in insertion order, one commit, and close, no writer stays cached, and the count returned is `AffectedRowsCount`; on failure a cached writer is kept untouched |
| Insert.InsertOperation.SetColumnNames | core/src/main/java/io/questdb/griffin/engine/ops/InsertOperationImpl.java:108-117 | afterwards the column list holds exactly the given names, so `authorizeInsert` receives them; an empty input installs the shared sentinel, any other input a fresh, non-sentinel list with the same names in the same order |
| Insert.InsertMethod.Execute | core/src/main/java/io/questdb/griffin/engine/ops/InsertOperationImpl.java:139-146 | the writer's calls grow by one append per row in insertion order, with no commit or close, and the row count is returned |
| Insert.InsertMethod.Commit | core/src/main/java/io/questdb/griffin/engine/ops/InsertOperationImpl.java:134-137 | the writer's only new call is one commit |
| Insert.InsertMethod.PopWriter | core/src/main/java/io/questdb/griffin/engine/ops/InsertOperationImpl.java:148-153 | returns the cached writer and leaves none cached |
| Insert.InsertMethod.Close | core/src/main/java/io/questdb/griffin/engine/ops/InsertOperationImpl.java:129-132 | closes the cached writer, if any (its only new call), and leaves none cached |

## Left out

- Concurrency: `PageFrameSequence` is not part of this model. That covers frame dispatch, the worker pool, work stealing and reassembly, and `execute(executionContext, collectSubSeq, order)` at F:139-142. The cursors' `of` calls are reduced to the cursor kind and its (order, budget) plan.
- `AsyncFilterAtom` is not part of this model. Acquire and release are a slot-ownership contract: the worker's slot, or a dedicated slot for the owner. `getFilter(filterId)` becomes the predicate parameter of `Filter`, and pre-touch is only recorded, since it does not change results.
- FilterReducer.FilterAtom: its `bindVarCount` is a constructor argument. In the source it is `bindVarFunctions.size()` (F:317), the same list `prepareBindVarMemory` serialises (F:443-444); the model does not tie that count to the length of the list `BindVars.PrepareBindVarMemory` encodes.
- `CompiledFilter.call` is foreign code. It is a function from its call parameters (bind-variable count, row count, start offset) to the offsets it writes. The data, aux and bind-memory addresses are not modelled.
- FLOAT and DOUBLE values are raw bit patterns; no floating-point semantics are modelled.
- Native memory is not modelled: page sizes, `DirectLongList` allocation and freeing, `populateJitData`, and the pointer `Utf8Sequence.ptr()`, which is an opaque `long`.
- BindVars.BindVarMemory: the buffer is whole 8-byte words plus at most one pending 4-byte half. Stray byte offsets and reads back from native memory are not modelled.
- SYMBOL bind variables: `function.init` (F:370) is external. The value is the integer key it yields.
- `AsyncJitFilterAtom.init` (F:440-445): `super.init` and `Function.init` are external. Its call to `prepareBindVarMemory` is `BindVars.PrepareBindVarMemory`.
- `ColumnType.nameOf` is external. An unsupported bind value carries its type's name.
- `_close`, `halfClose`, `Misc.free` ordering, the trivial getters and `recordCursorSupportsRandomAccess`/`usesCompiledFilter`/`supportsUpdateRowId` are not modelled.
- `toPlan` formatting is not modelled apart from the order and the `limit` attribute. That excludes the type line, the `workers` meta and the `filter` attribute.
- The text of the too-large-LIMIT message is carried as `LimitTooLarge(position, maxAllowed)`.
- JitFilterFactory.AsyncJitFilteredFactory.GetCursor: this uses the corrected routing. The code as written is `LimitResolution.GetCursorAsWritten`, and the two differ only on the limits in "## Findings".
- Insert collaborators are small recording objects. These are `SecurityContext.authorizeInsert`, `InsertRowImpl.initContext`/`append`, `WriterSource.getTableWriterAPI` and `TableWriterAPI`. The security context's verdict and the set of rows whose `initContext` throws are fixed per context.
- The writer pool behind `WriterSource` is not modelled. Each fetch hands out a new, open writer handle on the table's current metadata version and name, so pooling and reuse of one writer across fetches are not modelled.
- Insert.InsertOperation.CreateMethod: `getTableWriterAPI` never fails in the model. In the source a lookup that throws at I:76 leaves the cached writer null and the exception propagates; the "succeeds iff" of `Insert.InsertOperation.Execute` holds only because that failure is not modelled.
- Insert.InsertOperation.Execute: writer `append` and `commit` never throw in the model. The `close` that try-with-resources runs after such a throw is therefore not modelled.
- `createMethod(executionContext)` without a writer source (I:94-97) passes the engine as the source. The model always takes the source as a parameter.
- `InsertOperationFuture.getInstanceId` (the constant -3) is not modelled.
- `Chars.toString` and `Chars.equals` work on strings as values (`seq<char>`).

## Findings

| source | as written | input that shows it | evidently intended | confidence | as-written member | corrected member |
|---|---|---|---|---|---|---|
| core/src/main/java/io/questdb/griffin/engine/table/AsyncJitFilteredRecordCursorFactory.java:183-191 | `rowsRemaining = -rowsRemaining` wraps for `Long.MIN_VALUE`. The result is still negative, so `rowsRemaining > maxNegativeLimit` is false and the cap check is skipped | `LIMIT -9223372036854775808` | rejected with "absolute LIMIT value is too large", like every negative limit whose magnitude exceeds the cap | high, not executed | LimitResolution.GetCursorAsWritten (shown by LimitResolution.MinValueLimitSkipsCap): negative-limit cursor with budget `MIN_VALUE` | LimitResolution.SelectCursor |
| core/src/main/java/io/questdb/griffin/engine/table/AsyncJitFilteredRecordCursorFactory.java:183-201 | `-(MIN_VALUE + 1)` is `MAX_VALUE`, the "no limit" marker. The test `rowsRemaining != Long.MAX_VALUE` sends it to the forward cursor, with the reversed order and no budget | `LIMIT -9223372036854775807` | rejected by the cap check, since its magnitude exceeds any `int` cap | high, not executed | LimitResolution.GetCursorAsWritten (shown by LimitResolution.MinPlusOneLimitScansEverythingReversed): forward cursor, reversed order, budget `MAX_VALUE` | LimitResolution.SelectCursor |
