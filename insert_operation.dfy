/** InsertOperationImpl: a compiled INSERT that caches a table writer
    between executions. The writer is fetched and validated on the first
    `createMethod`, reused afterwards, and given up by `popWriter` or `close`.
    The writer, the rows and the security context are abstract objects whose
    calls are recorded. */
module Insert {
  import opened JavaTypes
  import opened Results

  /** A compiled row of the insert (InsertRowImpl), by identity. */
  datatype InsertRow = InsertRow(id: nat)

  datatype InsertError =
    | AccessDenied
    | InitContextFailed(rowIndex: nat)
    | WriterOutOfDate(tableName: string)

  /** Calls the insert makes on its execution context, in order. */
  datatype ContextEvent =
    | AuthorizeInsert(tableName: string, columnNames: Option<seq<string>>)
    | InitContext(row: InsertRow)

  /** The `initContext` calls for `rows`, in insertion order. */
  function InitTrace(rows: seq<InsertRow>): (trace: seq<ContextEvent>)
    ensures |trace| == |rows|
    ensures forall i :: 0 <= i < |rows| ==> trace[i] == InitContext(rows[i])
  {
    if rows == [] then [] else InitTrace(rows[..|rows| - 1]) + [InitContext(rows[|rows| - 1])]
  }

  /** Index of the first row whose `initContext` throws. */
  function FirstFailingRow(rows: seq<InsertRow>, failing: set<InsertRow>): (k: Option<nat>)
    ensures k.None? <==> forall i :: 0 <= i < |rows| ==> rows[i] !in failing
    ensures k.Some? ==> k.value < |rows| && rows[k.value] in failing
    ensures k.Some? ==> forall i :: 0 <= i < k.value ==> rows[i] !in failing
  {
    if rows == [] then None
    else if rows[0] in failing then Some(0)
    else
      match FirstFailingRow(rows[1..], failing)
      case None => None
      case Some(k) => Some(k + 1)
  }

  /** What a writer is asked to do, in order. */
  datatype WriterEvent = Appended(row: InsertRow) | Committed | Closed

  /** The appends of `rows`, in insertion order. */
  function Appends(rows: seq<InsertRow>): (events: seq<WriterEvent>)
    ensures |events| == |rows|
    ensures forall i :: 0 <= i < |rows| ==> events[i] == Appended(rows[i])
  {
    if rows == [] then [] else Appends(rows[..|rows| - 1]) + [Appended(rows[|rows| - 1])]
  }

  /** TableWriterAPI: what it was opened for, and the calls made on it. A
      closed writer takes no more rows or commits. */
  class TableWriter {
    const metadataVersion: int64
    const tableName: string
    var log: seq<WriterEvent>
    var closed: bool

    constructor (metadataVersion: int64, tableName: string)
      ensures this.metadataVersion == metadataVersion && this.tableName == tableName
      ensures log == [] && !closed
    {
      this.metadataVersion := metadataVersion;
      this.tableName := tableName;
      log, closed := [], false;
    }

    method Append(row: InsertRow)
      requires !closed
      modifies this
      ensures log == old(log) + [Appended(row)] && !closed
    {
      log := log + [Appended(row)];
    }

    method Commit()
      requires !closed
      modifies this
      ensures log == old(log) + [Committed] && !closed
    {
      log := log + [Committed];
    }

    method Close()
      modifies this
      ensures log == old(log) + [Closed] && closed
    {
      log := log + [Closed];
      closed := true;
    }
  }

  /** WriterSource for one table: every `getTableWriterAPI` hands out an open
      writer on the table's current metadata version and name. `fetched` lists
      the writers handed out, oldest first. */
  class WriterSource {
    const metadataVersion: int64
    const tableName: string
    var fetched: seq<TableWriter>

    constructor (metadataVersion: int64, tableName: string)
      ensures this.metadataVersion == metadataVersion && this.tableName == tableName && fetched == []
    {
      this.metadataVersion := metadataVersion;
      this.tableName := tableName;
      fetched := [];
    }

    method GetTableWriterAPI() returns (w: TableWriter)
      modifies this
      ensures fresh(w) && fetched == old(fetched) + [w]
      ensures w.metadataVersion == metadataVersion && w.tableName == tableName
      ensures w.log == [] && !w.closed
    {
      w := new TableWriter(metadataVersion, tableName);
      fetched := fetched + [w];
    }
  }

  /** The execution context with its security context: whether INSERT is
      authorised, and which rows' `initContext` throws in it. */
  class ExecutionContext {
    const insertAllowed: bool
    const failingRows: set<InsertRow>
    var events: seq<ContextEvent>

    constructor (insertAllowed: bool, failingRows: set<InsertRow>)
      ensures this.insertAllowed == insertAllowed && this.failingRows == failingRows && events == []
    {
      this.insertAllowed := insertAllowed;
      this.failingRows := failingRows;
      events := [];
    }

    method Authorize(tableName: string, columnNames: Option<seq<string>>) returns (ok: bool)
      modifies this
      ensures ok == insertAllowed && events == old(events) + [AuthorizeInsert(tableName, columnNames)]
    {
      ok := insertAllowed;
      events := events + [AuthorizeInsert(tableName, columnNames)];
    }

    method InitRow(row: InsertRow) returns (ok: bool)
      modifies this
      ensures ok == (row !in failingRows) && events == old(events) + [InitContext(row)]
    {
      ok := row !in failingRows;
      events := events + [InitContext(row)];
    }
  }

  /** ObjList<CharSequence> of column names. The shared empty sentinel
      refuses `addAll`. */
  class NameList {
    const isEmptySentinel: bool
    var items: seq<string>

    constructor (isEmptySentinel: bool)
      ensures this.isEmptySentinel == isEmptySentinel && items == []
    {
      this.isEmptySentinel := isEmptySentinel;
      items := [];
    }

    method Add(name: string)
      modifies this
      ensures items == old(items) + [name]
    {
      items := items + [name];
    }

    method AddAll(names: seq<string>) returns (ok: bool)
      modifies this
      ensures ok <==> !isEmptySentinel
      ensures items == if ok then old(items) + names else old(items)
    {
      ok := !isEmptySentinel;
      if ok {
        items := items + names;
      }
    }
  }

  /** The operation's list of rows, shared with its insert method. */
  class InsertRowList {
    var rows: seq<InsertRow>

    constructor ()
      ensures rows == []
    {
      rows := [];
    }
  }

  /** InsertMethodImpl: the cached writer and the calls made with it. */
  class InsertMethod {
    const insertRows: InsertRowList
    var writer: TableWriter?

    constructor (insertRows: InsertRowList)
      ensures this.insertRows == insertRows && writer == null
    {
      this.insertRows := insertRows;
      writer := null;
    }

    /** Appends every row to the writer in insertion order; returns the row count. */
    method Execute() returns (n: nat)
      requires writer != null && !writer.closed
      modifies writer
      ensures writer.log == old(writer.log) + Appends(insertRows.rows) && !writer.closed
      ensures n == |insertRows.rows|
    {
      var i := 0;
      while i < |insertRows.rows|
        invariant 0 <= i <= |insertRows.rows|
        invariant writer.log == old(writer.log) + Appends(insertRows.rows[..i]) && !writer.closed
      {
        assert insertRows.rows[..i + 1][..i] == insertRows.rows[..i];
        writer.Append(insertRows.rows[i]);
        i := i + 1;
      }
      assert insertRows.rows[..i] == insertRows.rows;
      n := |insertRows.rows|;
    }

    method Commit()
      requires writer != null && !writer.closed
      modifies writer
      ensures writer.log == old(writer.log) + [Committed] && !writer.closed
    {
      writer.Commit();
    }

    /** Hands the writer to the caller, who now owns it; the method keeps none. */
    method PopWriter() returns (w: TableWriter?)
      modifies this
      ensures w == old(writer) && writer == null
    {
      w := writer;
      writer := null;
    }

    /** Frees the writer, if any; the method keeps none. */
    method Close()
      modifies this, writer
      ensures writer == null
      ensures old(writer) != null ==> old(writer).closed && old(writer).log == old(writer.log) + [Closed]
    {
      if writer != null {
        writer.Close();
      }
      writer := null;
    }
  }

  class InsertOperation {
    /** `tableToken.getTableName()`. */
    const tableName: string
    const metadataVersion: int64
    const insertRows: InsertRowList
    const insertMethod: InsertMethod
    /** The shared, empty EMPTY_COLUMN_LIST. */
    const emptyColumnList: NameList
    var columnNames: NameList?

    /** The shared sentinel stays empty, and a writer is cached only while it
        is open and after it passed validation against the compiled metadata
        version and table name. */
    ghost predicate Valid()
      reads this, insertMethod, insertMethod.writer, emptyColumnList
    {
      && insertMethod.insertRows == insertRows
      && emptyColumnList.isEmptySentinel && emptyColumnList.items == []
      && (insertMethod.writer != null ==> Current(insertMethod.writer) && !insertMethod.writer.closed)
    }

    /** The writer was opened for the metadata version this insert was
        compiled against, under the same table name. */
    predicate Current(w: TableWriter)
    {
      w.metadataVersion == metadataVersion && w.tableName == tableName
    }

    /** The table as the source sees it still matches the compiled insert. */
    predicate SourceCurrent(source: WriterSource)
    {
      source.metadataVersion == metadataVersion && source.tableName == tableName
    }

    /** What `authorizeInsert` is given for the column list (`null` before it is set). */
    function ColumnNamesArgument(): Option<seq<string>>
      reads this, columnNames
    {
      if columnNames == null then None else Some(columnNames.items)
    }

    /** `InsertOperationFuture.getAffectedRowsCount`: one per row appended by an execution. */
    function AffectedRowsCount(): (n: nat)
      reads this, insertRows
      ensures n == |Appends(insertRows.rows)|
    {
      |insertRows.rows|
    }

    constructor (tableName: string, metadataVersion: int64, emptyColumnList: NameList)
      requires emptyColumnList.isEmptySentinel && emptyColumnList.items == []
      ensures Valid()
      ensures this.tableName == tableName && this.metadataVersion == metadataVersion
      ensures this.emptyColumnList == emptyColumnList && columnNames == null
      ensures fresh(insertRows) && fresh(insertMethod) && insertRows.rows == [] && insertMethod.writer == null
    {
      this.tableName := tableName;
      this.metadataVersion := metadataVersion;
      this.emptyColumnList := emptyColumnList;
      var rows := new InsertRowList();
      this.insertRows := rows;
      this.insertMethod := new InsertMethod(rows);
      this.columnNames := null;
    }

    method AddInsertRow(row: InsertRow)
      requires Valid()
      modifies insertRows
      ensures Valid()
      ensures insertRows.rows == old(insertRows.rows) + [row]
    {
      insertRows.rows := insertRows.rows + [row];
    }

    /** An empty list installs the shared sentinel; otherwise a fresh list
        holds the same names in the same order. Either way the column list
        then holds exactly `names`. */
    method SetColumnNames(names: seq<string>)
      requires Valid()
      modifies this`columnNames
      ensures Valid()
      ensures columnNames != null && columnNames.items == names
      ensures ColumnNamesArgument() == Some(names)
      ensures |names| == 0 ==> columnNames == emptyColumnList
      ensures |names| > 0 ==> fresh(columnNames) && !columnNames.isEmptySentinel
    {
      if |names| == 0 {
        columnNames := emptyColumnList;
      } else {
        var list := new NameList(false);
        var i := 0;
        while i < |names|
          invariant 0 <= i <= |names|
          invariant list.items == names[..i]
        {
          list.Add(names[i]);
          i := i + 1;
        }
        assert names[..i] == names;
        columnNames := list;
      }
    }

    /** `initContext` of every row, in insertion order, stopping at the first that throws. */
    method InitRows(ctx: ExecutionContext) returns (r: Outcome<InsertError>)
      modifies ctx
      ensures var k := FirstFailingRow(insertRows.rows, ctx.failingRows);
              && (k.None? ==> r == Pass && ctx.events == old(ctx.events) + InitTrace(insertRows.rows))
              && (k.Some? ==> r == Fail(InitContextFailed(k.value))
                              && ctx.events == old(ctx.events) + InitTrace(insertRows.rows[..k.value + 1]))
    {
      var rows := insertRows.rows;
      var i := 0;
      while i < |rows|
        invariant 0 <= i <= |rows|
        invariant forall j :: 0 <= j < i ==> rows[j] !in ctx.failingRows
        invariant ctx.events == old(ctx.events) + InitTrace(rows[..i])
      {
        assert rows[..i + 1][..i] == rows[..i];
        var ok := ctx.InitRow(rows[i]);
        if !ok {
          return Fail(InitContextFailed(i));
        }
        i := i + 1;
      }
      assert rows[..i] == rows;
      r := Pass;
    }

    /** `createMethod`: authorise, initialise the rows, then, only if no
        writer is cached, fetch one and keep it if it is current or close it
        and fail if it is not. */
    method CreateMethod(ctx: ExecutionContext, source: WriterSource) returns (r: Result<InsertMethod, InsertError>)
      requires Valid()
      modifies ctx, source, insertMethod
      ensures Valid()
      ensures r.Ok? ==> r.value == insertMethod && insertMethod.writer != null
      ensures var auth := AuthorizeInsert(tableName, ColumnNamesArgument());
              var k := FirstFailingRow(insertRows.rows, ctx.failingRows);
              && (!ctx.insertAllowed ==> r == Err(AccessDenied) && ctx.events == old(ctx.events) + [auth])
              && (ctx.insertAllowed && k.Some? ==>
                    && r == Err(InitContextFailed(k.value))
                    && ctx.events == old(ctx.events) + [auth] + InitTrace(insertRows.rows[..k.value + 1]))
              && (ctx.insertAllowed && k.None? ==> ctx.events == old(ctx.events) + [auth] + InitTrace(insertRows.rows))
      // nothing about writers happens before authorisation and row initialisation succeed,
      // and a cached writer is reused without a fetch
      ensures (!ctx.insertAllowed || FirstFailingRow(insertRows.rows, ctx.failingRows).Some? ||
               old(insertMethod.writer) != null) ==>
                insertMethod.writer == old(insertMethod.writer) && source.fetched == old(source.fetched)
      ensures ctx.insertAllowed && FirstFailingRow(insertRows.rows, ctx.failingRows).None? ==>
                && (old(insertMethod.writer) != null ==> r == Ok(insertMethod))
                && (old(insertMethod.writer) == null ==>
                      && |source.fetched| == |old(source.fetched)| + 1
                      && source.fetched[..|old(source.fetched)|] == old(source.fetched)
                      && var w := source.fetched[|source.fetched| - 1];
                         && fresh(w) && (Current(w) <==> SourceCurrent(source))
                         && (Current(w) ==>
                               r == Ok(insertMethod) && insertMethod.writer == w && w.log == [] && !w.closed)
                         && (!Current(w) ==>
                               r == Err(WriterOutOfDate(tableName)) && insertMethod.writer == null
                               && w.log == [Closed] && w.closed))
    {
      var allowed := ctx.Authorize(tableName, ColumnNamesArgument());
      if !allowed {
        return Err(AccessDenied);
      }
      var init := InitRows(ctx);
      if init.Fail? {
        return Err(init.error);
      }
      if insertMethod.writer == null {
        var writer := source.GetTableWriterAPI();
        assert source.fetched[..|old(source.fetched)|] == old(source.fetched);
        if writer.metadataVersion != metadataVersion || writer.tableName != tableName {
          writer.Close();
          return Err(WriterOutOfDate(tableName));
        }
        insertMethod.writer := writer;
      }
      r := Ok(insertMethod);
    }

    /** `execute(ctx)`: create the method, append every row, commit, then
        close the method, so no writer stays cached after a success. */
    method Execute(ctx: ExecutionContext, source: WriterSource) returns (r: Result<nat, InsertError>)
      requires Valid()
      modifies ctx, source, insertMethod, insertMethod.writer
      ensures Valid()
      ensures var k := FirstFailingRow(insertRows.rows, ctx.failingRows);
              && (!ctx.insertAllowed ==> r == Err(AccessDenied))
              && (ctx.insertAllowed && k.Some? ==> r == Err(InitContextFailed(k.value)))
              && (ctx.insertAllowed && k.None? && old(insertMethod.writer) == null && !SourceCurrent(source) ==>
                    r == Err(WriterOutOfDate(tableName)))
      ensures r.Ok? <==> ctx.insertAllowed && FirstFailingRow(insertRows.rows, ctx.failingRows).None?
                         && (old(insertMethod.writer) != null || SourceCurrent(source))
      // one authorisation, then, if granted, `initContext` on each row up to the first that throws
      ensures var k := FirstFailingRow(insertRows.rows, ctx.failingRows);
              ctx.events == old(ctx.events) + [AuthorizeInsert(tableName, ColumnNamesArgument())]
                            + (if !ctx.insertAllowed then []
                               else if k.Some? then InitTrace(insertRows.rows[..k.value + 1])
                               else InitTrace(insertRows.rows))
      // exactly one fetch, and only when no writer was cached and the create steps before it succeeded
      ensures |source.fetched| ==
                |old(source.fetched)|
                + (if ctx.insertAllowed && FirstFailingRow(insertRows.rows, ctx.failingRows).None?
                      && old(insertMethod.writer) == null then 1 else 0)
      ensures r.Ok? ==> r.value == AffectedRowsCount() && insertMethod.writer == null
      ensures r.Ok? && old(insertMethod.writer) != null ==>
                var w := old(insertMethod.writer);
                w.log == old(w.log) + Appends(insertRows.rows) + [Committed, Closed] && w.closed
      ensures r.Ok? && old(insertMethod.writer) == null ==>
                var w := source.fetched[|source.fetched| - 1];
                fresh(w) && w.log == Appends(insertRows.rows) + [Committed, Closed] && w.closed
      ensures r.Err? && old(insertMethod.writer) != null ==>
                insertMethod.writer == old(insertMethod.writer) && insertMethod.writer.log == old(insertMethod.writer.log)
      ensures r.Err? && old(insertMethod.writer) == null ==> insertMethod.writer == null
      ensures r == Err(WriterOutOfDate(tableName)) ==>
                && |source.fetched| == |old(source.fetched)| + 1
                && var w := source.fetched[|source.fetched| - 1];
                   fresh(w) && w.log == [Closed] && w.closed
    {
      var created := CreateMethod(ctx, source);
      if created.Err? {
        return Err(created.error);
      }
      var im := created.value;
      var n := im.Execute();
      im.Commit();
      im.Close();
      r := Ok(n);
    }
  }
}
