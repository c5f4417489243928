/** The per-frame reducer of the asynchronous JIT filter (`filter`): it
    clears the task's row list and fills it with the offsets of the frame's
    matching rows, by the interpreted filter when the frame has column tops
    and by the compiled filter otherwise. */
module FilterReducer {
  import opened Results

  /** What the interpreted filter's `getBool` does on one row of the frame. */
  datatype RowVerdict = RowTrue | RowFalse | RowThrows

  /** The compiled filter call, without its raw addresses: the bind-variable
      count, the frame's row count and the offset of the first row. */
  datatype JitCall = JitCall(bindVarCount: nat, rowCount: nat, rowsOffset: int)

  /** The filter atom's observable calls, in the order they happen. */
  datatype AtomEvent =
    | Acquired(filterId: int, workerId: int, owner: bool)
    | Released(filterId: int)
    | CompiledFilterCalled(call: JitCall)
    | PreTouched(rowCount: nat)

  /** A frame task: its row count, whether the page address cache reports
      column tops for its frame, and the identity of its frame sequence. */
  datatype FrameTask = FrameTask(frameRowCount: nat, columnTops: bool, frameSequence: nat)

  datatype FilterError = PredicateFailed(row: nat)

  /** The filter clone reserved for the thread that owns the frame sequence
      and reduces its own frames. */
  const STOLEN_WORK_SLOT: int := -1

  /** The interpreted-filter clone a reduction uses: the owner's dedicated
      clone, or the clone of the worker slot. */
  function SlotFor(workerId: int, owner: bool): int
  {
    if owner then STOLEN_WORK_SLOT else workerId
  }

  /** The reducing thread owns the task when it is stealing work from the
      task's own frame sequence. */
  function IsOwner(stealing: Option<nat>, taskSequence: nat): (owner: bool)
    ensures owner <==> stealing.Some? && stealing.value == taskSequence
  {
    match stealing
    case None => false
    case Some(s) => s == taskSequence
  }

  /** The offsets in [0, n) the predicate selects, in the order the row loop
      visits them. */
  function Selection(pred: nat -> RowVerdict, n: nat): (rows: seq<int>)
    ensures |rows| <= n
    ensures forall i :: 0 <= i < |rows| ==> 0 <= rows[i] < n && pred(rows[i]) == RowTrue
  {
    if n == 0 then []
    else Selection(pred, n - 1) + (if pred(n - 1) == RowTrue then [n - 1] else [])
  }

  /** The selected offsets are strictly ascending. */
  lemma {:induction false} SelectionAscending(pred: nat -> RowVerdict, n: nat)
    ensures forall i, j :: 0 <= i < j < |Selection(pred, n)| ==> Selection(pred, n)[i] < Selection(pred, n)[j]
  {
    if n > 0 {
      SelectionAscending(pred, n - 1);
    }
  }

  /** Every selected offset is a row in range the predicate accepts, and every
      such row is selected. */
  lemma {:induction false} SelectionExactly(pred: nat -> RowVerdict, n: nat, r: nat)
    ensures r in Selection(pred, n) <==> r < n && pred(r) == RowTrue
  {
    if n > 0 {
      SelectionExactly(pred, n - 1, r);
    }
  }

  /** The first row on which the predicate throws, if any. */
  function FirstThrow(pred: nat -> RowVerdict, n: nat): (k: Option<nat>)
    ensures k.None? <==> forall r: nat :: r < n ==> pred(r) != RowThrows
    ensures k.Some? ==> k.value < n && pred(k.value) == RowThrows
    ensures k.Some? ==> forall r: nat :: r < k.value ==> pred(r) != RowThrows
  {
    if n == 0 then None
    else
      match FirstThrow(pred, n - 1)
      case Some(k) => Some(k)
      case None => if pred(n - 1) == RowThrows then Some(n - 1) else None
  }

  /** DirectLongList of matched row offsets: native memory and a position;
      the list's contents are the words below the position. */
  class RowList {
    var mem: seq<int>
    var pos: nat

    ghost predicate Valid()
      reads this
    {
      pos <= |mem|
    }

    function Contents(): seq<int>
      reads this
      requires Valid()
    {
      mem[..pos]
    }

    constructor ()
      ensures Valid() && Contents() == []
    {
      mem, pos := [], 0;
    }

    method Clear()
      requires Valid()
      modifies this
      ensures Valid() && Contents() == [] && mem == old(mem)
    {
      pos := 0;
    }

    method Add(x: int)
      requires Valid()
      modifies this
      ensures Valid() && Contents() == old(Contents()) + [x]
    {
      if pos < |mem| {
        mem := mem[pos := x];
      } else {
        mem := mem + [x];
      }
      pos := pos + 1;
    }

    method SetPos(p: nat)
      requires p <= |mem|
      modifies this
      ensures Valid() && pos == p && mem == old(mem)
    {
      pos := p;
    }

    /** Native code writing `written` at the start of the list's memory. */
    method WriteFromStart(written: seq<int>)
      modifies this
      ensures |mem| >= |written| && mem[..|written|] == written && pos == old(pos)
    {
      mem := written + (if |written| < |mem| then mem[|written|..] else []);
    }
  }

  /** AsyncJitFilterAtom as the reducer sees it: the bind-variable count, the
      compiled filter (given as the offsets it writes for a call), and the
      ownership of interpreted-filter clones. `held` is the set of clone ids
      currently acquired; `events` records the calls made on the atom. */
  class FilterAtom {
    const bindVarCount: nat
    const compiledFilter: JitCall -> seq<int>
    var held: set<int>
    var events: seq<AtomEvent>

    constructor (bindVarCount: nat, compiledFilter: JitCall -> seq<int>)
      ensures this.bindVarCount == bindVarCount && this.compiledFilter == compiledFilter
      ensures held == {} && events == []
    {
      this.bindVarCount := bindVarCount;
      this.compiledFilter := compiledFilter;
      held, events := {}, [];
    }

    /** Takes exclusive ownership of a free interpreted-filter clone. */
    method AcquireFilter(workerId: int, owner: bool) returns (filterId: int)
      requires SlotFor(workerId, owner) !in held
      modifies this
      ensures filterId == SlotFor(workerId, owner)
      ensures filterId !in old(held) && held == old(held) + {filterId}
      ensures events == old(events) + [Acquired(filterId, workerId, owner)]
    {
      filterId := SlotFor(workerId, owner);
      held := held + {filterId};
      events := events + [Acquired(filterId, workerId, owner)];
    }

    method ReleaseFilter(filterId: int)
      requires filterId in held
      modifies this
      ensures held == old(held) - {filterId}
      ensures events == old(events) + [Released(filterId)]
    {
      held := held - {filterId};
      events := events + [Released(filterId)];
    }

    /** The compiled filter: writes the matching offsets into `rows`' memory
        and returns how many it wrote. */
    method CallCompiled(call: JitCall, rows: RowList) returns (hi: nat)
      modifies this, rows
      ensures hi == |compiledFilter(call)|
      ensures |rows.mem| >= hi && rows.mem[..hi] == compiledFilter(call) && rows.pos == old(rows.pos)
      ensures held == old(held) && events == old(events) + [CompiledFilterCalled(call)]
    {
      var written := compiledFilter(call);
      rows.WriteFromStart(written);
      hi := |written|;
      events := events + [CompiledFilterCalled(call)];
    }

    /** Reads the fixed-size columns of every selected row (no effect on results). */
    method PreTouchColumns(rows: RowList)
      requires rows.Valid()
      modifies this
      ensures held == old(held) && events == old(events) + [PreTouched(|rows.Contents()|)]
    {
      events := events + [PreTouched(|rows.Contents()|)];
    }
  }

  /** Reduces one frame into `rows`. With column tops, the interpreted filter
      runs row by row under an acquired clone that is released on every exit,
      and no pre-touch happens; the first row on which the predicate throws
      ends the reduction with the rows matched before it. Without column
      tops, the compiled filter is called once and the list keeps exactly the
      count it returns, then the columns are pre-touched. */
  method Filter(workerId: int, task: FrameTask, stealing: Option<nat>, atom: FilterAtom, rows: RowList,
                pred: nat -> RowVerdict)
    returns (r: Outcome<FilterError>)
    requires rows.Valid()
    requires task.columnTops ==> SlotFor(workerId, IsOwner(stealing, task.frameSequence)) !in atom.held
    modifies atom, rows
    ensures rows.Valid()
    ensures atom.held == old(atom.held)
    ensures task.columnTops ==>
              var owner := IsOwner(stealing, task.frameSequence);
              var id := SlotFor(workerId, owner);
              atom.events == old(atom.events) + [Acquired(id, workerId, owner), Released(id)]
    ensures task.columnTops && FirstThrow(pred, task.frameRowCount).None? ==>
              r == Pass && rows.Contents() == Selection(pred, task.frameRowCount)
    ensures task.columnTops && FirstThrow(pred, task.frameRowCount).Some? ==>
              var k := FirstThrow(pred, task.frameRowCount).value;
              r == Fail(PredicateFailed(k)) && rows.Contents() == Selection(pred, k)
    ensures !task.columnTops ==>
              var call := JitCall(atom.bindVarCount, task.frameRowCount, 0);
              && r == Pass
              && rows.Contents() == atom.compiledFilter(call)
              && atom.events == old(atom.events) + [CompiledFilterCalled(call), PreTouched(|rows.Contents()|)]
  {
    rows.Clear();
    if task.columnTops {
      var owner := IsOwner(stealing, task.frameSequence);
      var filterId := atom.AcquireFilter(workerId, owner);
      var row: nat := 0;
      while row < task.frameRowCount
        invariant row <= task.frameRowCount
        invariant rows.Valid() && rows.Contents() == Selection(pred, row)
        invariant FirstThrow(pred, row).None?
        invariant atom.held == old(atom.held) + {filterId}
        invariant atom.events == old(atom.events) + [Acquired(filterId, workerId, owner)]
      {
        var verdict := pred(row);
        if verdict == RowThrows {
          atom.ReleaseFilter(filterId);
          return Fail(PredicateFailed(row));
        }
        if verdict == RowTrue {
          rows.Add(row);
        }
        row := row + 1;
      }
      atom.ReleaseFilter(filterId);
      return Pass;
    }
    var call := JitCall(atom.bindVarCount, task.frameRowCount, 0);
    var hi := atom.CallCompiled(call, rows);
    rows.SetPos(hi);
    atom.PreTouchColumns(rows);
    r := Pass;
  }
}
