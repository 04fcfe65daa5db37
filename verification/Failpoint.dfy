/** Deterministic fault injection around one run's chunk transactions (failpoint.rs), and the state the crash
    harness demands afterwards (endurance/crash.rs). */
module Failpoint {
  import opened Decimal
  import Planner

  const U32: nat := 0x1_0000_0000

  datatype FailureMode = DuringWrite | AfterBusinessCommit

  /** What the wrapped writer and transaction manager do with one chunk. */
  datatype Inner = BeginFails | WriteFails | CommitFails | Commits

  /** How a run's chunks end. A failpoint fires as a typed error, or as a pause until the process is killed;
      the transaction that is open then rolls back either way. */
  datatype End = Finished | InnerError | Fired(boundary: string)

  function Boundary(mode: FailureMode): string {
    match mode case DuringWrite => "writer during-write" case AfterBusinessCommit => "after-business-commit"
  }

  /** How many chunks commit before the first that does not: what an unwrapped run makes durable. */
  function Leading(inner: seq<Inner>): (n: nat)
    ensures n <= |inner| && (n < |inner| ==> inner[n] != Commits)
    ensures forall i | 0 <= i < n :: inner[i] == Commits
  {
    if inner == [] || inner[0] != Commits then 0 else 1 + Leading(inner[1..])
  }

  /** The run gets as far as the point the failpoint aims at. */
  predicate Reached(inner: seq<Inner>, target: nat, mode: FailureMode) {
    && 1 <= target <= |inner| && Leading(inner) >= target - 1
    && (inner[target - 1].Commits? || (mode.DuringWrite? && inner[target - 1].CommitFails?))
  }

  /** The chunks a run leaves durable, and how it ends, with the failpoint aimed at `target` (0: nowhere). */
  function Expected<T>(chunks: seq<seq<T>>, inner: seq<Inner>, target: nat, mode: FailureMode): (seq<seq<T>>, End)
    requires |inner| == |chunks|
  {
    if Reached(inner, target, mode) then
      (chunks[..if mode.DuringWrite? then target - 1 else target], Fired(Boundary(mode)))
    else
      (chunks[..Leading(inner)], if Leading(inner) == |inner| then Finished else InnerError)
  }

  /** The two decorators of one run, sharing the chunk ordinal and the fired flag. */
  class Decorators<T> {
    const failAtChunk: nat
    const mode: FailureMode
    var chunkOrdinal: nat
    var fired: bool
    ghost var firings: nat
    /** The database: committed chunks, and the rows of the open transaction. */
    var durable: seq<seq<T>>
    var open: Option<seq<T>>

    constructor (failAtChunk: nat, mode: FailureMode)
      requires failAtChunk < U32
      ensures this.failAtChunk == failAtChunk && this.mode == mode
      ensures chunkOrdinal == 0 && !fired && firings == 0 && durable == [] && open == None
    {
      this.failAtChunk := failAtChunk;
      this.mode := mode;
      chunkOrdinal, fired, firings, durable, open := 0, false, 0, [], None;
    }

    /** `wrap`, behind `begin_for`: counts the attempt, whatever the inner transaction does. */
    method Begin(inner: Inner) returns (ok: bool, shouldFire: bool)
      modifies this`chunkOrdinal, this`open
      ensures chunkOrdinal == (old(chunkOrdinal) + 1) % U32
      ensures shouldFire <==> mode.AfterBusinessCommit? && failAtChunk != 0 && chunkOrdinal == failAtChunk
      ensures ok <==> !inner.BeginFails?
      ensures open == if ok then Some([]) else None
    {
      chunkOrdinal := (chunkOrdinal + 1) % U32;
      var fireAfterCommit := failAtChunk != 0 && mode == AfterBusinessCommit;
      shouldFire := fireAfterCommit && failAtChunk != 0 && chunkOrdinal == failAtChunk;
      ok := !inner.BeginFails?;
      open := if ok then Some([]) else None;
    }

    /** `FailingWriter::write`: the inner insert, then perhaps the failpoint. */
    method Write(items: seq<T>, inner: Inner) returns (r: Option<End>)
      requires open.Some?
      modifies this`open, this`fired, this`firings
      ensures var targeted := failAtChunk != 0 && chunkOrdinal == failAtChunk && mode.DuringWrite?;
        if inner.WriteFails? then r == Some(InnerError) && open == None && fired == old(fired) && firings == old(firings)
        else if targeted then r == Some(Fired(Boundary(DuringWrite))) && open == None && fired && firings == old(firings) + 1
        else r == None && open == Some(old(open.value) + items) && fired == old(fired) && firings == old(firings)
    {
      if inner.WriteFails? {
        open := None;
        return Some(InnerError);
      }
      open := Some(open.value + items);
      var targeted := failAtChunk != 0 && chunkOrdinal == failAtChunk;
      if targeted && mode == DuringWrite {
        fired, firings := true, firings + 1;
        open := None;
        return Some(Fired("writer during-write"));
      }
      r := None;
    }

    /** `FailingChunkTransaction::commit`: the inner commit, then perhaps the failpoint. */
    method Commit(inner: Inner, shouldFire: bool) returns (r: Option<End>)
      requires open.Some?
      modifies this`open, this`durable, this`fired, this`firings
      ensures open == None
      ensures durable == if inner.CommitFails? then old(durable) else old(durable) + [old(open.value)]
      ensures if inner.CommitFails? || !shouldFire then fired == old(fired) && firings == old(firings) else fired && firings == old(firings) + 1
      ensures r == if inner.CommitFails? then Some(InnerError) else if shouldFire then Some(Fired(Boundary(AfterBusinessCommit))) else None
    {
      if inner.CommitFails? {
        open := None;
        return Some(InnerError);
      }
      durable := durable + [open.value];
      open := None;
      if shouldFire {
        fired, firings := true, firings + 1;
        return Some(Fired("after-business-commit"));
      }
      r := None;
    }

    /** A run of the launcher over its chunks: one transaction each, no retry. */
    method RunChunks(chunks: seq<seq<T>>, inner: seq<Inner>) returns (end: End)
      requires |inner| == |chunks| && chunkOrdinal == 0 && !fired && firings == 0 && durable == [] && open == None
      requires failAtChunk != 0 ==> |chunks| < U32
      modifies this
      ensures open == None
      ensures (durable, end) == Expected(chunks, inner, failAtChunk, mode)
      ensures firings == (if Reached(inner, failAtChunk, mode) then 1 else 0) && (fired <==> firings == 1)
    {
      hide Leading, Boundary;
      for i := 0 to |chunks|
        invariant open == None && durable == chunks[..i] && (failAtChunk != 0 ==> chunkOrdinal == i)
        invariant !fired && firings == 0 && Leading(inner) >= i
        invariant Reached(inner, failAtChunk, mode) ==> i < failAtChunk
      {
        var ok, shouldFire := Begin(inner[i]);
        assert failAtChunk != 0 ==> chunkOrdinal == i + 1;
        LeadingAt(inner, i);
        if !ok { return InnerError; }
        var failed := Write(chunks[i], inner[i]);
        if failed.Some? { return failed.value; }
        failed := Commit(inner[i], shouldFire);
        assert [] + chunks[i] == chunks[i] && chunks[..i + 1] == chunks[..i] + [chunks[i]];
        if failed.Some? { return failed.value; }
      }
      assert chunks[..|chunks|] == chunks;
      return Finished;
    }
  }

  lemma LeadingAt(inner: seq<Inner>, i: nat)
    requires Leading(inner) >= i && i < |inner|
    ensures inner[i] == Commits <==> Leading(inner) >= i + 1
    ensures inner[i] != Commits ==> Leading(inner) == i
  {
  }

  // ----------------------------------------------------------- what it yields --

  /** Aimed at nothing, the decorators change nothing, for any number of chunks. */
  lemma DisarmedIsPlain<T>(chunks: seq<seq<T>>, inner: seq<Inner>, mode: FailureMode)
    requires |inner| == |chunks|
    ensures Expected(chunks, inner, 0, mode) ==
      (chunks[..Leading(inner)], if Leading(inner) == |inner| then Finished else InnerError)
  {
  }

  /** `rows.chunks(size)`. */
  function Split<T>(rows: seq<T>, size: nat): seq<seq<T>>
    requires size > 0
    decreases |rows|
  {
    if rows == [] then [] else if |rows| <= size then [rows] else [rows[..size]] + Split(rows[size..], size)
  }

  function Flat<T>(chunks: seq<seq<T>>): seq<T> {
    if chunks == [] then [] else chunks[0] + Flat(chunks[1..])
  }

  /** The first k full chunks hold exactly the first k * size rows. */
  lemma {:induction false} SplitPrefix<T>(rows: seq<T>, size: nat, k: nat)
    requires size > 0 && k * size <= |rows|
    ensures k <= |Split(rows, size)| && Flat(Split(rows, size)[..k]) == rows[..k * size]
    ensures k * size == |rows| ==> |Split(rows, size)| == k
    decreases |rows|
  {
    hide Split, Flat;
    if k > 0 {
      var m := (k - 1) * size;
      assert k * size == size + m;
      SplitStep(rows, size);
      if |rows| <= size {
        assert m == 0 && k == 1 by { assert k > 1 ==> m >= size; }
        assert [rows][..1] == [rows] && rows[..size] == rows;
      } else {
        SplitPrefix(rows[size..], size, k - 1);
        PrefixStep(rows, size, m, Split(rows[size..], size), k);
      }
    } else {
      assert Split(rows, size)[..0] == [] && rows[..0] == [] && Flat<T>([]) == [] by { FlatNil<T>(); }
      SplitNil(rows, size);
    }
  }

  lemma PrefixStep<T>(rows: seq<T>, size: nat, m: nat, tail: seq<seq<T>>, k: nat)
    requires size + m <= |rows| && 1 <= k <= |tail| + 1 && Flat(tail[..k - 1]) == rows[size..][..m]
    ensures Flat(([rows[..size]] + tail)[..k]) == rows[..size + m]
  {
    assert ([rows[..size]] + tail)[..k] == [rows[..size]] + tail[..k - 1];
    assert ([rows[..size]] + tail[..k - 1])[1..] == tail[..k - 1];
    assert rows[..size + m] == rows[..size] + rows[size..][..m];
  }

  lemma FlatNil<T>()
    ensures Flat<T>([]) == []
  {
  }

  lemma SplitNil<T>(rows: seq<T>, size: nat)
    requires size > 0
    ensures rows == [] ==> Split(rows, size) == []
  {
  }

  lemma SplitStep<T>(rows: seq<T>, size: nat)
    requires size > 0 && rows != []
    ensures |rows| > size ==> Split(rows, size) == [rows[..size]] + Split(rows[size..], size)
    ensures |rows| <= size ==> Split(rows, size) == [rows] && Flat([rows]) == rows
  {
  }

  // ------------------------------------------------------- the crash harness --

  const CRASH_CHUNK := 3
  const SOURCE_ROWS := 200_000
  const CHUNK_SIZE := 1_000

  datatype CrashState = CrashState(status: string, commitCount: int, checkpointPosition: int, businessRows: int)

  /** `crash_contract`: the mode to inject, the boundary the marker must name, the commits to expect. */
  function CrashContract(failure: Planner.Failure): Option<(FailureMode, string, nat)> {
    match failure
    case BeforeCommit => Some((DuringWrite, "writer during-write", CRASH_CHUNK - 1))
    case AfterCommit => Some((AfterBusinessCommit, "after-business-commit", CRASH_CHUNK))
    case Clean => None
  }

  /** `require_crash_state`. */
  method RequireCrashState(state: CrashState, commits: nat, position: int) returns (ok: bool)
    ensures ok <==>
      && (state.status == "STARTED" || state.status == "STARTING" || state.status == "UNKNOWN")
      && state.commitCount == commits && state.checkpointPosition == position == state.businessRows
  {
    if state.status != "STARTED" && state.status != "STARTING" && state.status != "UNKNOWN" { return false; }
    if state.commitCount != commits { return false; }
    if state.checkpointPosition != position { return false; }
    if state.businessRows != position { return false; }
    return true;
  }

  /** The failpoint the harness arms leaves exactly the commits, position and rows it then demands, at the boundary
      it waits for, provided the database itself does not fail before the crash. */
  lemma ContractMet<T>(failure: Planner.Failure, rows: seq<T>, inner: seq<Inner>)
    requires CrashContract(failure).Some? && |rows| == SOURCE_ROWS
    requires var chunks := Split(rows, CHUNK_SIZE); |inner| == |chunks| && Leading(inner) >= CRASH_CHUNK
    ensures var (mode, boundary, commits) := CrashContract(failure).value;
      var (durable, end) := Expected(Split(rows, CHUNK_SIZE), inner, CRASH_CHUNK, mode);
      && end == Fired(boundary) && |durable| == commits
      && Flat(durable) == rows[..commits * CHUNK_SIZE] && |Flat(durable)| == commits * CHUNK_SIZE
      && |Flat(durable)| == (if failure.BeforeCommit? then 2_000 else 3_000)
      && boundary == if failure.BeforeCommit? then "writer during-write" else "after-business-commit"
  {
    hide Split, Flat;
    SplitPrefix(rows, CHUNK_SIZE, 2);
    SplitPrefix(rows, CHUNK_SIZE, 3);
  }

  /** The same, end to end: arm the decorators, run the chunks, and the harness's check passes whatever
      nonterminal status the killed execution was left in. */
  method CrashIteration<T>(failure: Planner.Failure, rows: seq<T>, inner: seq<Inner>, status: string) returns (accepted: bool)
    requires CrashContract(failure).Some? && |rows| == SOURCE_ROWS
    requires |inner| == |Split(rows, CHUNK_SIZE)|
    requires status == "STARTED" || status == "STARTING" || status == "UNKNOWN"
    ensures Leading(inner) >= CRASH_CHUNK ==> accepted
  {
    hide Split, Flat;
    var (mode, boundary, commits) := CrashContract(failure).value;
    var run := new Decorators<T>(CRASH_CHUNK, mode);
    SplitPrefix(rows, CHUNK_SIZE, SOURCE_ROWS / CHUNK_SIZE);
    var end := run.RunChunks(Split(rows, CHUNK_SIZE), inner);
    if Leading(inner) >= CRASH_CHUNK { ContractMet(failure, rows, inner); }
    if end != Fired(boundary) { return false; }
    var position := |Flat(run.durable)|;
    accepted := RequireCrashState(CrashState(status, |run.durable|, position, position), commits, commits * CHUNK_SIZE);
  }
}
