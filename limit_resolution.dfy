/** How the asynchronous JIT-filter factory turns a LIMIT value into a scan
    order and a row budget, and which result cursor it hands the budget to
    (`getCursor` and `toPlan` of AsyncJitFilteredRecordCursorFactory). */
module LimitResolution {
  import opened JavaTypes
  import opened Results

  /** Scan direction reported by the base factory. */
  datatype ScanDirection = ScanForward | ScanBackward | ScanOther

  datatype Order = Asc | Desc

  /** What evaluating the LIMIT function (`init`, then `getLong`) yields:
      there is no LIMIT function, it yields a value, or it throws. */
  datatype LimitValue = NoLimit | Limit(value: int64) | LimitThrows

  /** The order a scan runs in and how many rows it may produce. */
  datatype ScanPlan = ScanPlan(order: Order, rowsRemaining: int64)

  datatype CursorKind = ForwardCursor | NegativeLimitCursor

  /** The cursor `getCursor` returns, with the plan it was opened with. */
  datatype Routing = Routing(kind: CursorKind, plan: ScanPlan)

  datatype LimitError =
    | LimitTooLarge(position: int32, maxAllowed: int32)
    | LimitEvaluationFailed

  /** The summary `toPlan` prints: the child's order and the `limit` attribute, if any. */
  datatype PlanSummary = PlanSummary(order: Order, limitAttribute: Option<int64>)

  function BaseOrder(dir: ScanDirection): (o: Order)
    ensures o == Desc <==> dir == ScanBackward
  {
    if dir == ScanBackward then Desc else Asc
  }

  function Reverse(o: Order): (r: Order)
    ensures r != o
  {
    if o == Asc then Desc else Asc
  }

  /** Resolution of a LIMIT value that was evaluated: a negative limit scans
      in the reverse of the base order for its magnitude, computed with Java's
      wrapping `long` negation. */
  function ResolveLimit(base: Order, limit: int64): (p: ScanPlan)
    ensures p.order == base <==> limit >= 0
    ensures limit >= 0 ==> p.rowsRemaining == limit
    ensures LONG_MIN < limit < 0 ==> p.rowsRemaining == -limit
    ensures limit == LONG_MIN ==> p.rowsRemaining == LONG_MIN
  {
    if limit > -1 then ScanPlan(base, limit) else ScanPlan(Reverse(base), Negate(limit))
  }

  /** The plan used when there is no LIMIT function. */
  function UnlimitedPlan(base: Order): ScanPlan
  {
    ScanPlan(base, LONG_MAX)
  }

  /** The routing step of `getCursor` as written: a reversed order with a
      finite budget goes to the negative-limit cursor, after the cap check. */
  function Route(base: Order, plan: ScanPlan, maxNegativeLimit: int32, limitPos: int32): Result<Routing, LimitError>
  {
    if plan.order != base && plan.rowsRemaining != LONG_MAX then
      if plan.rowsRemaining > maxNegativeLimit then Err(LimitTooLarge(limitPos, maxNegativeLimit))
      else Ok(Routing(NegativeLimitCursor, plan))
    else
      Ok(Routing(ForwardCursor, plan))
  }

  /** `getCursor` exactly as written, including the wrap-around of
      `-rowsRemaining` for the two most negative limits. */
  function GetCursorAsWritten(dir: ScanDirection, limit: LimitValue, maxNegativeLimit: int32, limitPos: int32)
    : (r: Result<Routing, LimitError>)
    ensures limit.NoLimit? ==> r == Ok(Routing(ForwardCursor, ScanPlan(BaseOrder(dir), LONG_MAX)))
    ensures limit.LimitThrows? ==> r == Err(LimitEvaluationFailed)
    ensures limit.Limit? && limit.value >= 0 ==>
              r == Ok(Routing(ForwardCursor, ScanPlan(BaseOrder(dir), limit.value)))
    ensures limit.Limit? && LONG_MIN + 1 < limit.value < 0 ==>
              r == if -limit.value > maxNegativeLimit then Err(LimitTooLarge(limitPos, maxNegativeLimit))
                   else Ok(Routing(NegativeLimitCursor, ScanPlan(Reverse(BaseOrder(dir)), -limit.value)))
    // Long.MIN_VALUE negates to itself, which is below every cap
    ensures limit == Limit(LONG_MIN) ==>
              r == Ok(Routing(NegativeLimitCursor, ScanPlan(Reverse(BaseOrder(dir)), LONG_MIN)))
    // -(MIN_VALUE + 1) is MAX_VALUE, the "no limit" marker, so routing falls through
    ensures limit == Limit(LONG_MIN + 1) ==>
              r == Ok(Routing(ForwardCursor, ScanPlan(Reverse(BaseOrder(dir)), LONG_MAX)))
  {
    var base := BaseOrder(dir);
    match limit
    case NoLimit => Route(base, UnlimitedPlan(base), maxNegativeLimit, limitPos)
    case Limit(v) => Route(base, ResolveLimit(base, v), maxNegativeLimit, limitPos)
    case LimitThrows => Err(LimitEvaluationFailed)
  }

  /** `getCursor` with the magnitude of a negative limit compared with the cap
      before it is narrowed to a `long`: every negative limit either fails the
      cap check or reaches the negative-limit cursor with a budget in
      1..maxNegativeLimit, and every other outcome scans in the base order. */
  function SelectCursor(dir: ScanDirection, limit: LimitValue, maxNegativeLimit: int32, limitPos: int32)
    : (r: Result<Routing, LimitError>)
    ensures r.Err? <==> limit.LimitThrows? || (limit.Limit? && limit.value < 0 && -(limit.value as int) > maxNegativeLimit)
    ensures r.Err? && limit.Limit? ==> r.error == LimitTooLarge(limitPos, maxNegativeLimit)
    ensures r.Ok? && r.value.kind == NegativeLimitCursor ==>
              && limit.Limit? && limit.value < 0
              && r.value.plan.order == Reverse(BaseOrder(dir))
              && r.value.plan.rowsRemaining == -limit.value
              && 0 < r.value.plan.rowsRemaining <= maxNegativeLimit
    ensures r.Ok? && r.value.kind == ForwardCursor ==>
              && r.value.plan.order == BaseOrder(dir)
              && (limit.NoLimit? ==> r.value.plan.rowsRemaining == LONG_MAX)
              && (limit.Limit? ==> limit.value >= 0 && r.value.plan.rowsRemaining == limit.value)
  {
    var base := BaseOrder(dir);
    match limit
    case NoLimit => Ok(Routing(ForwardCursor, UnlimitedPlan(base)))
    case Limit(v) =>
      if v > -1 then Ok(Routing(ForwardCursor, ScanPlan(base, v)))
      else if -(v as int) > maxNegativeLimit then Err(LimitTooLarge(limitPos, maxNegativeLimit))
      else Ok(Routing(NegativeLimitCursor, ScanPlan(Reverse(base), -v)))
    case LimitThrows => Err(LimitEvaluationFailed)
  }

  /** The corrected routing differs from the code as written only on the two
      limits whose negation wraps. */
  lemma SelectCursorAgreesAsWritten(dir: ScanDirection, limit: LimitValue, maxNegativeLimit: int32, limitPos: int32)
    requires limit != Limit(LONG_MIN) && limit != Limit(LONG_MIN + 1)
    ensures SelectCursor(dir, limit, maxNegativeLimit, limitPos) == GetCursorAsWritten(dir, limit, maxNegativeLimit, limitPos)
  {
  }

  /** LIMIT -9223372036854775808 passes the cap check as written and opens the
      negative-limit cursor with a negative budget; the corrected routing rejects it. */
  lemma MinValueLimitSkipsCap(dir: ScanDirection, maxNegativeLimit: int32, limitPos: int32)
    ensures var r := GetCursorAsWritten(dir, Limit(LONG_MIN), maxNegativeLimit, limitPos);
            r.Ok? && r.value.kind == NegativeLimitCursor && r.value.plan.rowsRemaining < 0
    ensures SelectCursor(dir, Limit(LONG_MIN), maxNegativeLimit, limitPos) == Err(LimitTooLarge(limitPos, maxNegativeLimit))
  {
  }

  /** LIMIT -9223372036854775807 negates to the "no limit" marker, so as
      written it opens the forward cursor on the reversed order with no
      budget; the corrected routing rejects it. */
  lemma MinPlusOneLimitScansEverythingReversed(dir: ScanDirection, maxNegativeLimit: int32, limitPos: int32)
    ensures var r := GetCursorAsWritten(dir, Limit(LONG_MIN + 1), maxNegativeLimit, limitPos);
            r.Ok? && r.value.kind == ForwardCursor && r.value.plan.order != BaseOrder(dir)
            && r.value.plan.rowsRemaining == LONG_MAX
    ensures SelectCursor(dir, Limit(LONG_MIN + 1), maxNegativeLimit, limitPos) == Err(LimitTooLarge(limitPos, maxNegativeLimit))
  {
  }

  /** `toPlan`: a LIMIT function that throws counts as no limit, and the
      `limit` attribute is printed only for a budget other than MAX_VALUE. */
  function ToPlanSummary(dir: ScanDirection, limit: LimitValue): (s: PlanSummary)
    ensures !limit.Limit? ==> s == PlanSummary(BaseOrder(dir), None)
    ensures limit.Limit? ==> s.order == ResolveLimit(BaseOrder(dir), limit.value).order
    ensures limit.Limit? ==>
              var rows := ResolveLimit(BaseOrder(dir), limit.value).rowsRemaining;
              s.limitAttribute == if rows == LONG_MAX then None else Some(rows)
  {
    var base := BaseOrder(dir);
    var plan := match limit
      case Limit(v) => ResolveLimit(base, v)
      case _ => UnlimitedPlan(base);
    PlanSummary(plan.order, if plan.rowsRemaining != LONG_MAX then Some(plan.rowsRemaining) else None)
  }

  /** The plan shows the order and budget `getCursor` (as written) opens its
      cursor with, whenever the LIMIT function can be evaluated. */
  lemma ToPlanMatchesGetCursor(dir: ScanDirection, limit: LimitValue, maxNegativeLimit: int32, limitPos: int32)
    requires GetCursorAsWritten(dir, limit, maxNegativeLimit, limitPos).Ok?
    ensures var plan := GetCursorAsWritten(dir, limit, maxNegativeLimit, limitPos).value.plan;
            && ToPlanSummary(dir, limit).order == plan.order
            && ToPlanSummary(dir, limit).limitAttribute ==
                 (if plan.rowsRemaining == LONG_MAX then None else Some(plan.rowsRemaining))
  {
  }
}
