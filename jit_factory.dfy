/** AsyncJitFilteredRecordCursorFactory: the factory's fixed configuration,
    the negative-limit row buffer it allocates on first use, and the cursor it
    hands out for a LIMIT value. */
module JitFilterFactory {
  import opened JavaTypes
  import opened Results
  import opened LimitResolution

  /** The DirectLongList the negative-limit cursor accumulates row ids into. */
  class NegativeLimitRows {
    const capacity: int32

    constructor (capacity: int32)
      ensures this.capacity == capacity
    {
      this.capacity := capacity;
    }
  }

  /** The column types to pre-touch after compiled filtering: every column
      type of the base metadata, in column order, when pre-touch is enabled;
      no list otherwise. */
  method PreTouchColumnTypes(preTouchColumns: bool, columnTypes: seq<int32>) returns (r: Option<seq<int32>>)
    ensures r.Some? <==> preTouchColumns
    ensures r.Some? ==> r.value == columnTypes
  {
    if !preTouchColumns {
      return None;
    }
    var list: seq<int32> := [];
    var i := 0;
    while i < |columnTypes|
      invariant 0 <= i <= |columnTypes|
      invariant list == columnTypes[..i]
    {
      list := list + [columnTypes[i]];
      i := i + 1;
    }
    r := Some(list);
  }

  class AsyncJitFilteredFactory {
    const scanDirection: ScanDirection
    /** Whether the factory was given a LIMIT function (`limitLoFunction != null`). */
    const hasLimitFunction: bool
    const limitLoPos: int32
    const maxNegativeLimit: int32
    const workerCount: int32
    const preTouchColumnTypes: Option<seq<int32>>
    var negativeLimitRows: NegativeLimitRows?

    /** A negative-limit buffer, once allocated, is sized by the cap. */
    ghost predicate Valid()
      reads this
    {
      negativeLimitRows != null ==> negativeLimitRows.capacity == maxNegativeLimit
    }

    constructor (scanDirection: ScanDirection, hasLimitFunction: bool, limitLoPos: int32,
                 maxNegativeLimit: int32, workerCount: int32, preTouchColumns: bool, columnTypes: seq<int32>)
      ensures Valid()
      ensures this.scanDirection == scanDirection && this.hasLimitFunction == hasLimitFunction
      ensures this.limitLoPos == limitLoPos && this.maxNegativeLimit == maxNegativeLimit
      ensures this.workerCount == workerCount
      ensures preTouchColumnTypes == if preTouchColumns then Some(columnTypes) else None
      ensures negativeLimitRows == null
    {
      this.scanDirection := scanDirection;
      this.hasLimitFunction := hasLimitFunction;
      this.limitLoPos := limitLoPos;
      this.maxNegativeLimit := maxNegativeLimit;
      this.workerCount := workerCount;
      var types := PreTouchColumnTypes(preTouchColumns, columnTypes);
      this.preTouchColumnTypes := types;
      this.negativeLimitRows := null;
    }

    /** The factory follows a LIMIT advice exactly when it has a LIMIT function. */
    function FollowedLimitAdvice(): (b: bool)
      ensures b <==> hasLimitFunction
    {
      hasLimitFunction
    }

    /** Filter stealing is allowed only when no LIMIT is being followed. */
    function SupportsFilterStealing(): (b: bool)
      ensures b <==> !FollowedLimitAdvice()
    {
      !hasLimitFunction
    }

    /** `getCursor`, for the value the factory's LIMIT function yields. The
        negative-limit buffer is allocated, with capacity `maxNegativeLimit`,
        the first time the negative-limit cursor is chosen and reused after. */
    method GetCursor(limit: LimitValue) returns (r: Result<Routing, LimitError>)
      requires Valid()
      requires hasLimitFunction <==> !limit.NoLimit?
      modifies this`negativeLimitRows
      ensures Valid()
      ensures r == SelectCursor(scanDirection, limit, maxNegativeLimit, limitLoPos)
      ensures r.Ok? && r.value.kind == NegativeLimitCursor ==> negativeLimitRows != null
      ensures old(negativeLimitRows) != null ==> negativeLimitRows == old(negativeLimitRows)
      ensures old(negativeLimitRows) == null && negativeLimitRows != null ==>
                fresh(negativeLimitRows) && r.Ok? && r.value.kind == NegativeLimitCursor
    {
      r := SelectCursor(scanDirection, limit, maxNegativeLimit, limitLoPos);
      if r.Ok? && r.value.kind == NegativeLimitCursor && negativeLimitRows == null {
        negativeLimitRows := new NegativeLimitRows(maxNegativeLimit);
      }
    }

    /** The order and `limit` attribute `toPlan` prints. */
    function ToPlan(limit: LimitValue): (s: PlanSummary)
      requires hasLimitFunction <==> !limit.NoLimit?
      ensures !hasLimitFunction ==> s == PlanSummary(BaseOrder(scanDirection), None)
      ensures s.limitAttribute.Some? ==> hasLimitFunction && s.limitAttribute.value != LONG_MAX
      ensures limit.LimitThrows? ==> s == PlanSummary(BaseOrder(scanDirection), None)
      // whenever `GetCursor` opens a cursor, the plan shows its order and budget
      ensures SelectCursor(scanDirection, limit, maxNegativeLimit, limitLoPos).Ok? ==>
                var plan := SelectCursor(scanDirection, limit, maxNegativeLimit, limitLoPos).value.plan;
                s.order == plan.order && s.limitAttribute == if plan.rowsRemaining == LONG_MAX then None else Some(plan.rowsRemaining)
    {
      ToPlanSummary(scanDirection, limit)
    }
  }
}
