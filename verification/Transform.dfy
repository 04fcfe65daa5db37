/** The restartable transform: runs, crashes, recoveries and source writers, interleaved at every database step
    (job.rs, source_digest.rs, processor.rs). */
module Transform {
  import opened Decimal
  import opened RowCodec
  import MergeVerify

  // --------------------------------------------------------------- the world --

  /** What the workload calls but does not define: SHA-256 (and its first sixteen bytes), upper-casing, trimming. */
  datatype World = World(
    hash: seq<Byte> -> nat, truncated: seq<Byte> -> seq<Byte>, upper: seq<Byte> -> seq<Byte>, blank: seq<Byte> -> bool)

  ghost predicate Injective(w: World) { forall a, b :: w.hash(a) == w.hash(b) ==> a == b }

  type Content = seq<SourceRow>

  /** What the source table can hold, in `customer_id` order. */
  ghost predicate Valid(c: Content) {
    && (forall i, j | 0 <= i < j < |c| :: c[i].customerId < c[j].customerId)
    && (forall r | r in c :: NulFree(r.fullName))
  }

  /** `source_digest::compute`. */
  function DigestOf(w: World, c: Content): nat { w.hash(EncodeAll(EncodeSource, c)) }

  lemma DigestIdentifies(w: World, a: Content, b: Content)
    requires Injective(w) && Valid(a) && Valid(b)
    ensures DigestOf(w, a) == DigestOf(w, b) <==> a == b
  {
    SourceUniquelyDecodable(a, b);
  }

  /** Rust's `/ 100`: truncation toward zero. */
  function WholeUnits(cents: int): int { if cents >= 0 then cents / 100 else -((-cents) / 100) }

  /** Negative balances lose their fraction too: the result is never further from zero than the balance. */
  lemma TruncatesTowardZero(cents: int)
    ensures var units := WholeUnits(cents);
      && -100 < cents - 100 * units < 100
      && (cents >= 0 ==> 0 <= 100 * units <= cents) && (cents <= 0 ==> cents <= 100 * units <= 0)
    ensures WholeUnits(-cents) == -WholeUnits(cents)
  {
  }

  const PREMIUM_THRESHOLD := 50_000

  /** `transform`, and `verify`'s own copy of it. */
  function Project(w: World, r: SourceRow): ProjectedRow {
    ProjectedRow(r.customerId, w.upper(r.fullName), WholeUnits(r.balanceCents), r.balanceCents >= PREMIUM_THRESHOLD,
                 w.truncated(EncodeSource(r)[..|EncodeSource(r)| - 1]))
  }

  function ProjectAll(w: World, c: Content): (p: seq<ProjectedRow>)
    ensures |p| == |c| && forall i | 0 <= i < |c| :: p[i] == Project(w, c[i])
  {
    if c == [] then [] else [Project(w, c[0])] + ProjectAll(w, c[1..])
  }

  // --------------------------------------------------------------- the state --

  datatype Mode = Cursor | Paging

  /** `parameters`: the identity of a job instance. */
  datatype JobKey = JobKey(importName: string, digest: nat, mode: Mode)

  /** The destination's primary key: no reader mode in it. */
  datatype RowKey = RowKey(importName: string, digest: nat, customerId: int)

  type Table = map<RowKey, ProjectedRow>

  /** STARTING, STARTED, STOPPING and UNKNOWN are all `Running` here. */
  datatype Status = Running | Completed | Failed

  /** The executions of one job instance, and the position its chunks have committed. */
  datatype Instance = Instance(executions: seq<Status>, position: nat)

  datatype Stage =
    | Locked
    | Digested(digest: nat)
    | Launched(digest: nat, execution: nat, position: nat)
    | Recovering
    | Remembered(digest: nat)
    | Looked(digest: nat, execution: nat)

  /** A live process of `run` (the first three stages) or of `recover` (the others). */
  datatype Process = Process(importName: string, mode: Mode, chunkSize: nat, stage: Stage)

  /** `run` holds its SHARE lock from before the digest until the launch returns; `recover` holds its own only until
      it has the digest. */
  predicate HoldsLock(p: Process) { !p.stage.Remembered? && !p.stage.Looked? }

  datatype State = State(source: Content, table: Table, instances: map<JobKey, Instance>, live: map<nat, Process>)

  const EMPTY := State([], map[], map[], map[])

  function KeyOf(p: Process, digest: nat): JobKey { JobKey(p.importName, digest, p.mode) }

  function PositionOf(st: State, key: JobKey): nat {
    if key in st.instances then st.instances[key].position else 0
  }

  // --------------------------------------------------------------- the steps --

  datatype Action =
    | WriteSource(rows: Content)
    | Arrive(pid: nat, importName: string, mode: Mode, chunkSize: nat)
    | ComputeDigest(pid: nat)
    | Launch(pid: nat)
    | Chunk(pid: nat, recorded: bool)
    | Finish(pid: nat, recorded: bool)
    | Fail(pid: nat, recorded: bool)
    | Crash(pid: nat)
    | ArriveToRecover(pid: nat, importName: string, mode: Mode)
    | RememberDigest(pid: nat)
    | LookUp(pid: nat)
    | MarkFailed(pid: nat)

  function Gone(st: State, pid: nat): State { st.(live := st.live - {pid}) }

  function Staged(st: State, pid: nat, stage: Stage): State
    requires pid in st.live
  {
    st.(live := st.live[pid := st.live[pid].(stage := stage)])
  }

  /** The end of an execution as the repository records it, if the record gets there. */
  function Ended(st: State, key: JobKey, execution: nat, status: Status, recorded: bool): State {
    if recorded && key in st.instances && execution < |st.instances[key].executions| then
      var i := st.instances[key];
      st.(instances := st.instances[key := i.(executions := i.executions[execution := status])])
    else st
  }

  /** The launcher refuses a nonterminal or completed instance and otherwise resumes at its committed position. */
  function Launching(st: State, pid: nat, digest: nat): State
    requires pid in st.live
  {
    var key := KeyOf(st.live[pid], digest);
    var i := if key in st.instances then st.instances[key] else Instance([], 0);
    if i.executions != [] && i.executions[|i.executions| - 1] != Failed then Gone(st, pid)
    else Staged(st.(instances := st.instances[key := i.(executions := i.executions + [Running])]), pid,
                Launched(digest, |i.executions|, i.position))
  }

  function Insert(w: World, t: Table, importName: string, digest: nat, rows: Content): Table
    decreases rows
  {
    if rows == [] then t
    else Insert(w, t[RowKey(importName, digest, rows[0].customerId) := Project(w, rows[0])], importName, digest, rows[1..])
  }

  predicate Conflicts(t: Table, importName: string, digest: nat, rows: Content) {
    exists r :: r in rows && RowKey(importName, digest, r.customerId) in t
  }

  /** One chunk: read from the source as it is now, processed, and written in one transaction with the new position.
      A blank name or a duplicate key fails the execution and leaves nothing. */
  function Chunking(w: World, st: State, pid: nat, recorded: bool): State
    requires pid in st.live && st.live[pid].stage.Launched?
  {
    var p := st.live[pid];
    var key, pos := KeyOf(p, p.stage.digest), p.stage.position;
    if pos >= |st.source| || p.chunkSize == 0 || key !in st.instances then st
    else
      var next := if pos + p.chunkSize < |st.source| then pos + p.chunkSize else |st.source|;
      var rows := st.source[pos..next];
      if (exists r :: r in rows && w.blank(r.fullName)) || Conflicts(st.table, p.importName, p.stage.digest, rows) then
        Gone(Ended(st, key, p.stage.execution, Failed, recorded), pid)
      else
        Staged(st.(table := Insert(w, st.table, p.importName, p.stage.digest, rows),
                   instances := st.instances[key := st.instances[key].(position := next)]),
               pid, p.stage.(position := next))
  }

  /** Recovery finds the latest execution of the instance its digest identified, if it is nonterminal; otherwise it
      fails closed. The source may have changed since. */
  function LookingUp(st: State, pid: nat): State
    requires pid in st.live && st.live[pid].stage.Remembered?
  {
    var key := KeyOf(st.live[pid], st.live[pid].stage.digest);
    if key in st.instances && st.instances[key].executions != []
       && st.instances[key].executions[|st.instances[key].executions| - 1] == Running
    then Staged(st, pid, Looked(key.digest, |st.instances[key].executions| - 1))
    else Gone(st, pid)
  }

  /** Marking is versioned: an execution that has ended in the meantime is not touched. */
  function Marking(st: State, pid: nat): State
    requires pid in st.live && st.live[pid].stage.Looked?
  {
    var p := st.live[pid];
    var key := KeyOf(p, p.stage.digest);
    if key in st.instances && p.stage.execution < |st.instances[key].executions|
       && st.instances[key].executions[p.stage.execution] == Running
    then Gone(Ended(st, key, p.stage.execution, Failed, true), pid)
    else Gone(st, pid)
  }

  /** An action whose guard fails changes nothing. */
  ghost function Step(w: World, st: State, a: Action): State {
    match a
    case WriteSource(rows) =>
      if Valid(rows) && forall pid | pid in st.live :: !HoldsLock(st.live[pid]) then st.(source := rows) else st
    case Arrive(pid, importName, mode, chunkSize) =>
      if pid !in st.live && chunkSize > 0 then st.(live := st.live[pid := Process(importName, mode, chunkSize, Locked)]) else st
    case ComputeDigest(pid) =>
      if pid in st.live && st.live[pid].stage.Locked? then Staged(st, pid, Digested(DigestOf(w, st.source))) else st
    case Launch(pid) =>
      if pid in st.live && st.live[pid].stage.Digested? then Launching(st, pid, st.live[pid].stage.digest) else st
    case Chunk(pid, recorded) =>
      if pid in st.live && st.live[pid].stage.Launched? then Chunking(w, st, pid, recorded) else st
    case Finish(pid, recorded) =>
      if pid in st.live && st.live[pid].stage.Launched? && st.live[pid].stage.position >= |st.source| then
        var p := st.live[pid];
        Gone(Ended(st, KeyOf(p, p.stage.digest), p.stage.execution, Completed, recorded), pid)
      else st
    case Fail(pid, recorded) =>
      if pid in st.live && st.live[pid].stage.Launched? then
        var p := st.live[pid];
        Gone(Ended(st, KeyOf(p, p.stage.digest), p.stage.execution, Failed, recorded), pid)
      else st
    case Crash(pid) => Gone(st, pid)
    case ArriveToRecover(pid, importName, mode) =>
      if pid !in st.live then st.(live := st.live[pid := Process(importName, mode, 0, Recovering)]) else st
    case RememberDigest(pid) =>
      if pid in st.live && st.live[pid].stage.Recovering? then Staged(st, pid, Remembered(DigestOf(w, st.source))) else st
    case LookUp(pid) =>
      if pid in st.live && st.live[pid].stage.Remembered? then LookingUp(st, pid) else st
    case MarkFailed(pid) =>
      if pid in st.live && st.live[pid].stage.Looked? then Marking(st, pid) else st
  }

  ghost function Run(w: World, actions: seq<Action>): State {
    if actions == [] then EMPTY else Step(w, Run(w, actions[..|actions| - 1]), actions[|actions| - 1])
  }

  // ------------------------------------------------------------ the invariant --

  predicate Among(c: Content, p: nat, id: int)
    requires p <= |c|
  {
    exists k :: 0 <= k < p && c[k].customerId == id
  }

  /** The rows of one scope are exactly the projection of the first p rows of c. */
  ghost predicate HoldsPrefix(w: World, t: Table, importName: string, digest: nat, c: Content, p: nat) {
    && p <= |c|
    && (forall k | 0 <= k < p ::
          RowKey(importName, digest, c[k].customerId) in t
          && t[RowKey(importName, digest, c[k].customerId)] == Project(w, c[k]))
    && (forall id: int :: RowKey(importName, digest, id) in t ==> Among(c, p, id))
  }

  ghost predicate ScopeOk(w: World, st: State, importName: string, c: Content) {
    var digest := DigestOf(w, c);
    var cursor, paging := PositionOf(st, JobKey(importName, digest, Cursor)), PositionOf(st, JobKey(importName, digest, Paging));
    (cursor == 0 || paging == 0) && HoldsPrefix(w, st.table, importName, digest, c, cursor + paging)
  }

  /** A completed execution means the whole content was committed. */
  ghost predicate CompletedOk(w: World, st: State, importName: string, c: Content, mode: Mode) {
    var key := JobKey(importName, DigestOf(w, c), mode);
    key in st.instances && Completed in st.instances[key].executions ==> st.instances[key].position == |c|
  }

  /** A live process's digest describes the source as long as it holds its lock, and it never runs ahead. */
  ghost predicate ProcessOk(w: World, st: State, p: Process) {
    match p.stage
    case Digested(digest) => digest == DigestOf(w, st.source)
    case Launched(digest, execution, position) =>
      digest == DigestOf(w, st.source) && KeyOf(p, digest) in st.instances && position <= PositionOf(st, KeyOf(p, digest))
    case _ => true
  }

  ghost predicate Invariant(w: World, st: State) {
    && Valid(st.source)
    && (forall pid | pid in st.live :: ProcessOk(w, st, st.live[pid]))
    && (forall importName, c | Valid(c) :: ScopeOk(w, st, importName, c))
    && (forall importName, c, mode | Valid(c) :: CompletedOk(w, st, importName, c, mode))
  }

  // ------------------------------------------------------------- frame lemmas --

  ghost predicate SamePositions(a: State, b: State) {
    a.table == b.table && forall key :: PositionOf(a, key) == PositionOf(b, key)
  }

  lemma ScopesKept(w: World, a: State, b: State)
    requires SamePositions(a, b) && forall importName, c | Valid(c) :: ScopeOk(w, a, importName, c)
    ensures forall importName, c | Valid(c) :: ScopeOk(w, b, importName, c)
  {
    hide HoldsPrefix, PositionOf, DigestOf, Valid;
    forall importName, c | Valid(c) ensures ScopeOk(w, b, importName, c) {
      assert ScopeOk(w, a, importName, c);
    }
  }

  /** Instances are only ever added, and positions only ever rise. */
  ghost predicate Grows(a: State, b: State) {
    && a.source == b.source
    && (forall key :: key in a.instances ==> key in b.instances)
    && (forall key :: PositionOf(a, key) <= PositionOf(b, key))
  }

  lemma ProcessesKept(w: World, a: State, b: State)
    requires Grows(a, b) && forall pid | pid in a.live :: ProcessOk(w, a, a.live[pid])
    ensures forall pid | pid in a.live :: ProcessOk(w, b, a.live[pid])
  {
    hide PositionOf, DigestOf;
  }

  ghost predicate NothingCompleted(a: State, b: State) {
    forall key | key in b.instances && Completed in b.instances[key].executions ::
      key in a.instances && Completed in a.instances[key].executions && b.instances[key].position == a.instances[key].position
  }

  lemma CompletionsKept(w: World, a: State, b: State)
    requires NothingCompleted(a, b) && forall importName, c, mode | Valid(c) :: CompletedOk(w, a, importName, c, mode)
    ensures forall importName, c, mode | Valid(c) :: CompletedOk(w, b, importName, c, mode)
  {
    hide DigestOf, Valid;
    forall importName, c, mode | Valid(c) ensures CompletedOk(w, b, importName, c, mode) {
      assert CompletedOk(w, a, importName, c, mode);
    }
  }

  lemma Start(w: World)
    ensures Invariant(w, EMPTY)
  {
  }

  // --------------------------------------------------------- one step at a time --

  lemma LockedInvariant(w: World, st: State, pid: nat, p: Process)
    requires Invariant(w, st) && ProcessOk(w, st, p)
    ensures Invariant(w, st.(live := st.live[pid := p]))
  {
    hide DigestOf, Valid, HoldsPrefix;
    var b := st.(live := st.live[pid := p]);
    ScopesKept(w, st, b);
    ProcessesKept(w, st, b);
    CompletionsKept(w, st, b);
    forall q | q in b.live ensures ProcessOk(w, b, b.live[q]) {}
  }

  lemma GoneInvariant(w: World, st: State, pid: nat)
    requires Invariant(w, st)
    ensures Invariant(w, Gone(st, pid))
  {
    hide DigestOf, Valid, HoldsPrefix;
    var b := Gone(st, pid);
    ScopesKept(w, st, b);
    ProcessesKept(w, st, b);
    CompletionsKept(w, st, b);
  }

  lemma WriteInvariant(w: World, st: State, rows: Content)
    requires Invariant(w, st) && Valid(rows) && forall pid | pid in st.live :: !HoldsLock(st.live[pid])
    ensures Invariant(w, st.(source := rows))
  {
    hide DigestOf, Valid, HoldsPrefix;
    var b := st.(source := rows);
    ScopesKept(w, st, b);
    CompletionsKept(w, st, b);
  }

  lemma LaunchInvariant(w: World, st: State, pid: nat)
    requires Invariant(w, st) && pid in st.live && st.live[pid].stage.Digested?
    ensures Invariant(w, Launching(st, pid, st.live[pid].stage.digest))
  {
    hide DigestOf, Valid, HoldsPrefix;
    var digest := st.live[pid].stage.digest;
    var key := KeyOf(st.live[pid], digest);
    var i := if key in st.instances then st.instances[key] else Instance([], 0);
    GoneInvariant(w, st, pid);
    if i.executions == [] || i.executions[|i.executions| - 1] == Failed {
      assert ProcessOk(w, st, st.live[pid]);
      var a := st.(instances := st.instances[key := i.(executions := i.executions + [Running])]);
      ScopesKept(w, st, a);
      ProcessesKept(w, st, a);
      CompletionsKept(w, st, a);
      LockedInvariant(w, a, pid, st.live[pid].(stage := Launched(digest, |i.executions|, i.position)));
    }
  }

  /** An execution ending keeps the invariant; ending as completed needs the whole content committed. */
  lemma EndInvariant(w: World, st: State, key: JobKey, execution: nat, status: Status, recorded: bool)
    requires Invariant(w, st) && Injective(w)
    requires status == Completed ==> key.digest == DigestOf(w, st.source) && PositionOf(st, key) == |st.source|
    ensures Invariant(w, Ended(st, key, execution, status, recorded))
  {
    hide Valid, HoldsPrefix;
    var b := Ended(st, key, execution, status, recorded);
    ScopesKept(w, st, b);
    ProcessesKept(w, st, b);
    forall importName, c, mode | Valid(c) ensures CompletedOk(w, b, importName, c, mode) {
      assert CompletedOk(w, st, importName, c, mode);
      if JobKey(importName, DigestOf(w, c), mode) == key && status == Completed { DigestIdentifies(w, c, st.source); }
    }
  }

  lemma FinishInvariant(w: World, st: State, pid: nat, recorded: bool)
    requires Invariant(w, st) && Injective(w) && pid in st.live && st.live[pid].stage.Launched?
    requires st.live[pid].stage.position >= |st.source|
    ensures Invariant(w, Step(w, st, Finish(pid, recorded)))
  {
    hide Valid, DigestOf;
    var p := st.live[pid];
    assert ProcessOk(w, st, p);
    assert ScopeOk(w, st, p.importName, st.source);
    assert p.mode == Cursor || p.mode == Paging;
    EndInvariant(w, st, KeyOf(p, p.stage.digest), p.stage.execution, Completed, recorded);
    GoneInvariant(w, Ended(st, KeyOf(p, p.stage.digest), p.stage.execution, Completed, recorded), pid);
  }

  // ---------------------------------------------------------------- the commit --

  lemma {:induction false} InsertElsewhere(w: World, t: Table, importName: string, digest: nat, rows: Content, key: RowKey)
    requires key.importName != importName || key.digest != digest
    ensures key in Insert(w, t, importName, digest, rows) <==> key in t
    ensures key in t ==> Insert(w, t, importName, digest, rows)[key] == t[key]
    decreases rows
  {
    if rows != [] {
      InsertElsewhere(w, t[RowKey(importName, digest, rows[0].customerId) := Project(w, rows[0])], importName, digest, rows[1..], key);
    }
  }

  lemma InsertOne(w: World, t: Table, importName: string, digest: nat, c: Content, p: nat)
    requires Valid(c) && HoldsPrefix(w, t, importName, digest, c, p) && p < |c|
    ensures HoldsPrefix(w, t[RowKey(importName, digest, c[p].customerId) := Project(w, c[p])], importName, digest, c, p + 1)
  {
    hide Project, NulFree;
    var t' := t[RowKey(importName, digest, c[p].customerId) := Project(w, c[p])];
    forall id: int | RowKey(importName, digest, id) in t' ensures Among(c, p + 1, id) {
      if id != c[p].customerId { assert Among(c, p, id); }
    }
  }

  /** Inserting the next rows of the content extends the prefix the scope holds. */
  lemma {:induction false} InsertExtends(w: World, t: Table, importName: string, digest: nat, c: Content, p: nat, next: nat)
    requires Valid(c) && HoldsPrefix(w, t, importName, digest, c, p) && p <= next <= |c|
    ensures HoldsPrefix(w, Insert(w, t, importName, digest, c[p..next]), importName, digest, c, next)
    decreases next - p
  {
    hide Project, Valid, HoldsPrefix;
    if p < next {
      InsertOne(w, t, importName, digest, c, p);
      assert c[p..next][1..] == c[p + 1..next];
      InsertExtends(w, t[RowKey(importName, digest, c[p].customerId) := Project(w, c[p])], importName, digest, c, p + 1, next);
    }
  }

  /** The primary key alone fences: a chunk that is not next in line meets a row that is already there. */
  lemma OnlyNextCommits(w: World, st: State, importName: string, c: Content, mode: Mode, pos: nat, next: nat)
    requires ScopeOk(w, st, importName, c) && Valid(c)
    requires pos <= PositionOf(st, JobKey(importName, DigestOf(w, c), mode)) && pos < next <= |c|
    requires !Conflicts(st.table, importName, DigestOf(w, c), c[pos..next])
    ensures HoldsPrefix(w, st.table, importName, DigestOf(w, c), c, pos)
    ensures PositionOf(st, JobKey(importName, DigestOf(w, c), mode)) == pos
    ensures forall m: Mode | m != mode :: PositionOf(st, JobKey(importName, DigestOf(w, c), m)) == 0
  {
    hide DigestOf, Project, Valid;
    var digest := DigestOf(w, c);
    var cursor, paging := PositionOf(st, JobKey(importName, digest, Cursor)), PositionOf(st, JobKey(importName, digest, Paging));
    assert mode == Cursor || mode == Paging;
    assert c[pos] in c[pos..next] by { assert c[pos..next][0] == c[pos]; }
    assert RowKey(importName, digest, c[pos].customerId) !in st.table;
    assert cursor + paging == pos;
  }

  lemma InsertLeaves(w: World, t: Table, importName: string, digest: nat, rows: Content,
                     other: string, otherDigest: nat, c: Content, p: nat)
    requires HoldsPrefix(w, t, other, otherDigest, c, p) && (other != importName || otherDigest != digest)
    ensures HoldsPrefix(w, Insert(w, t, importName, digest, rows), other, otherDigest, c, p)
  {
    hide Insert, Project;
    forall id: int
      ensures var key := RowKey(other, otherDigest, id);
        (key in Insert(w, t, importName, digest, rows) <==> key in t)
        && (key in t ==> Insert(w, t, importName, digest, rows)[key] == t[key])
    {
      InsertElsewhere(w, t, importName, digest, rows, RowKey(other, otherDigest, id));
    }
  }

  /** A commit leaves every other scope as it was. */
  lemma CommitOtherScope(w: World, st: State, a: State, key: JobKey, rows: Content, next: nat, importName: string, c: Content)
    requires key in st.instances && (importName != key.importName || DigestOf(w, c) != key.digest)
    requires a.table == Insert(w, st.table, key.importName, key.digest, rows)
    requires a.instances == st.instances[key := st.instances[key].(position := next)]
    requires ScopeOk(w, st, importName, c)
    ensures ScopeOk(w, a, importName, c)
  {
    var digest := DigestOf(w, c);
    hide DigestOf, Insert, HoldsPrefix;
    var cursor, paging := PositionOf(st, JobKey(importName, digest, Cursor)), PositionOf(st, JobKey(importName, digest, Paging));
    assert PositionOf(a, JobKey(importName, digest, Cursor)) == cursor && PositionOf(a, JobKey(importName, digest, Paging)) == paging;
    InsertLeaves(w, st.table, key.importName, key.digest, rows, importName, digest, c, cursor + paging);
  }

  /** Its own scope moves on to `next`. */
  lemma CommitOwnScope(w: World, st: State, a: State, key: JobKey, next: nat, c: Content)
    requires key in st.instances && DigestOf(w, c) == key.digest
    requires a.instances == st.instances[key := st.instances[key].(position := next)]
    requires HoldsPrefix(w, a.table, key.importName, key.digest, c, next)
    requires forall m: Mode | m != key.mode :: PositionOf(st, JobKey(key.importName, key.digest, m)) == 0
    ensures ScopeOk(w, a, key.importName, c)
  {
    hide DigestOf, HoldsPrefix;
    assert key.mode == Cursor || key.mode == Paging;
    assert forall m: Mode | m != key.mode :: PositionOf(a, JobKey(key.importName, key.digest, m)) == 0;
    assert PositionOf(a, key) == next;
  }

  lemma CommitScope(w: World, st: State, a: State, key: JobKey, rows: Content, next: nat, importName: string, c: Content)
    requires Injective(w) && Valid(c) && Valid(st.source) && key.digest == DigestOf(w, st.source) && key in st.instances
    requires a.table == Insert(w, st.table, key.importName, key.digest, rows)
    requires a.instances == st.instances[key := st.instances[key].(position := next)]
    requires ScopeOk(w, st, importName, c)
    requires HoldsPrefix(w, a.table, key.importName, key.digest, st.source, next)
    requires forall m: Mode | m != key.mode :: PositionOf(st, JobKey(key.importName, key.digest, m)) == 0
    ensures ScopeOk(w, a, importName, c)
  {
    DigestIdentifies(w, c, st.source);
    hide Valid, DigestOf, Insert, HoldsPrefix, ScopeOk, PositionOf;
    if importName == key.importName && DigestOf(w, c) == key.digest {
      CommitOwnScope(w, st, a, key, next, c);
    } else {
      CommitOtherScope(w, st, a, key, rows, next, importName, c);
    }
  }

  lemma CommitCompleted(w: World, st: State, a: State, key: JobKey, pos: nat, next: nat, importName: string, c: Content, mode: Mode)
    requires Injective(w) && Valid(c) && Valid(st.source) && key.digest == DigestOf(w, st.source) && key in st.instances
    requires a.instances == st.instances[key := st.instances[key].(position := next)] && pos < next <= |st.source|
    requires CompletedOk(w, st, importName, c, mode) && PositionOf(st, key) == pos
    ensures CompletedOk(w, a, importName, c, mode)
  {
    DigestIdentifies(w, c, st.source);
  }

  lemma CommitInvariant(w: World, st: State, pid: nat, next: nat)
    requires Invariant(w, st) && Injective(w) && pid in st.live && st.live[pid].stage.Launched?
    requires st.live[pid].stage.position < next <= |st.source|
    requires var p := st.live[pid];
      !Conflicts(st.table, p.importName, p.stage.digest, st.source[p.stage.position..next])
    ensures var p := st.live[pid];
      var key := KeyOf(p, p.stage.digest);
      && key in st.instances
      && Invariant(w, Staged(st.(table := Insert(w, st.table, p.importName, p.stage.digest, st.source[p.stage.position..next]),
                                 instances := st.instances[key := st.instances[key].(position := next)]),
                             pid, p.stage.(position := next)))
  {
    hide Valid, DigestOf, HoldsPrefix, Insert, Conflicts;
    var p := st.live[pid];
    var key, pos := KeyOf(p, p.stage.digest), p.stage.position;
    assert ProcessOk(w, st, p);
    assert ScopeOk(w, st, p.importName, st.source);
    OnlyNextCommits(w, st, p.importName, st.source, p.mode, pos, next);
    var rows := st.source[pos..next];
    var a := st.(table := Insert(w, st.table, p.importName, p.stage.digest, rows),
                 instances := st.instances[key := st.instances[key].(position := next)]);
    InsertExtends(w, st.table, p.importName, p.stage.digest, st.source, pos, next);
    forall importName, c | Valid(c) ensures ScopeOk(w, a, importName, c) {
      CommitScope(w, st, a, key, rows, next, importName, c);
    }
    forall importName, c, mode | Valid(c) ensures CompletedOk(w, a, importName, c, mode) {
      CommitCompleted(w, st, a, key, pos, next, importName, c, mode);
    }
    ProcessesKept(w, st, a);
    LockedInvariant(w, a, pid, p.(stage := p.stage.(position := next)));
  }

  lemma ChunkInvariant(w: World, st: State, pid: nat, recorded: bool)
    requires Invariant(w, st) && Injective(w) && pid in st.live && st.live[pid].stage.Launched?
    ensures Invariant(w, Chunking(w, st, pid, recorded))
  {
    hide Valid, DigestOf, HoldsPrefix, Insert, Conflicts, ScopeOk, CompletedOk, ProcessOk, Invariant;
    var p := st.live[pid];
    var key, pos := KeyOf(p, p.stage.digest), p.stage.position;
    if !(pos >= |st.source| || p.chunkSize == 0 || key !in st.instances) {
      var next := if pos + p.chunkSize < |st.source| then pos + p.chunkSize else |st.source|;
      var rows := st.source[pos..next];
      if (exists r :: r in rows && w.blank(r.fullName)) || Conflicts(st.table, p.importName, p.stage.digest, rows) {
        EndInvariant(w, st, key, p.stage.execution, Failed, recorded);
        GoneInvariant(w, Ended(st, key, p.stage.execution, Failed, recorded), pid);
      } else {
        CommitInvariant(w, st, pid, next);
      }
    }
  }

  lemma RecoveryInvariant(w: World, st: State, pid: nat)
    requires Invariant(w, st) && Injective(w) && pid in st.live && st.live[pid].stage.Looked?
    ensures Invariant(w, Marking(st, pid))
    ensures Marking(st, pid).table == st.table && forall key :: PositionOf(Marking(st, pid), key) == PositionOf(st, key)
  {
    hide Invariant;
    var p := st.live[pid];
    EndInvariant(w, st, KeyOf(p, p.stage.digest), p.stage.execution, Failed, true);
    GoneInvariant(w, Ended(st, KeyOf(p, p.stage.digest), p.stage.execution, Failed, true), pid);
    GoneInvariant(w, st, pid);
  }

  lemma StepInvariant(w: World, st: State, a: Action)
    requires Invariant(w, st) && Injective(w)
    ensures Invariant(w, Step(w, st, a))
  {
    hide Invariant, Chunking, Marking, Launching, Ended;
    match a
    case WriteSource(rows) =>
      if Valid(rows) && forall pid | pid in st.live :: !HoldsLock(st.live[pid]) { WriteInvariant(w, st, rows); }
    case Arrive(pid, importName, mode, chunkSize) =>
      LockedInvariant(w, st, pid, Process(importName, mode, chunkSize, Locked));
    case ComputeDigest(pid) =>
      if pid in st.live { LockedInvariant(w, st, pid, st.live[pid].(stage := Digested(DigestOf(w, st.source)))); }
    case Launch(pid) =>
      if pid in st.live && st.live[pid].stage.Digested? { LaunchInvariant(w, st, pid); }
    case Chunk(pid, recorded) =>
      if pid in st.live && st.live[pid].stage.Launched? { ChunkInvariant(w, st, pid, recorded); }
    case Finish(pid, recorded) =>
      if pid in st.live && st.live[pid].stage.Launched? && st.live[pid].stage.position >= |st.source| {
        FinishInvariant(w, st, pid, recorded);
      }
    case Fail(pid, recorded) =>
      if pid in st.live && st.live[pid].stage.Launched? {
        var p := st.live[pid];
        EndInvariant(w, st, KeyOf(p, p.stage.digest), p.stage.execution, Failed, recorded);
        GoneInvariant(w, Ended(st, KeyOf(p, p.stage.digest), p.stage.execution, Failed, recorded), pid);
      }
    case Crash(pid) => GoneInvariant(w, st, pid);
    case ArriveToRecover(pid, importName, mode) =>
      LockedInvariant(w, st, pid, Process(importName, mode, 0, Recovering));
    case RememberDigest(pid) =>
      if pid in st.live { LockedInvariant(w, st, pid, st.live[pid].(stage := Remembered(DigestOf(w, st.source)))); }
    case LookUp(pid) =>
      GoneInvariant(w, st, pid);
      if pid in st.live && st.live[pid].stage.Remembered? {
        var key := KeyOf(st.live[pid], st.live[pid].stage.digest);
        if key in st.instances && st.instances[key].executions != [] {
          LockedInvariant(w, st, pid, st.live[pid].(stage := Looked(key.digest, |st.instances[key].executions| - 1)));
        }
      }
    case MarkFailed(pid) =>
      if pid in st.live && st.live[pid].stage.Looked? { RecoveryInvariant(w, st, pid); }
  }

  /** Every interleaving keeps the invariant. */
  lemma {:induction false} RunInvariant(w: World, actions: seq<Action>)
    requires Injective(w)
    ensures Invariant(w, Run(w, actions))
    decreases |actions|
  {
    hide Invariant, Step;
    if actions == [] {
      Start(w);
    } else {
      RunInvariant(w, actions[..|actions| - 1]);
      StepInvariant(w, Run(w, actions[..|actions| - 1]), actions[|actions| - 1]);
    }
  }

  // ------------------------------------------------------------- what it means --

  /** Whatever ran, crashed, recovered or wrote the source, and in whatever order: the destination rows of a
      scope are the projection of a prefix of the one content that digest names, as long as the committed position
      of the at most one reader mode whose position is not zero. */
  lemma DestinationIsPrefix(w: World, actions: seq<Action>, importName: string, c: Content)
    requires Injective(w) && Valid(c)
    ensures ScopeOk(w, Run(w, actions), importName, c)
  {
    RunInvariant(w, actions);
  }

  /** What a destination row must say of its source row: the upper-cased name, the balance in whole units within one
      unit on zero's side, the premium threshold, and the truncated hash of the source fields between two NULs. */
  predicate Transformed(w: World, r: SourceRow, out: ProjectedRow) {
    && out.customerId == r.customerId
    && out.displayName == w.upper(r.fullName)
    && -100 < r.balanceCents - 100 * out.loyaltyScore < 100
    && (r.balanceCents >= 0 ==> 0 <= 100 * out.loyaltyScore <= r.balanceCents)
    && (r.balanceCents <= 0 ==> r.balanceCents <= 100 * out.loyaltyScore <= 0)
    && (out.isPremium <==> r.balanceCents >= 50_000)
    && out.fingerprint == w.truncated(
         ToLe(r.customerId) + [0] + r.fullName + [0] + [if r.isActive then 1 else 0] + ToLe(r.balanceCents))
  }

  lemma ProjectTransforms(w: World, r: SourceRow)
    ensures Transformed(w, r, Project(w, r))
  {
    hide ToLe, WholeUnits;
    TruncatesTowardZero(r.balanceCents);
    var e := EncodeSource(r);
    assert e[..|e| - 1] == ToLe(r.customerId) + [0] + r.fullName + [0] + [if r.isActive then 1 else 0] + ToLe(r.balanceCents);
  }

  /** In every interleaving: each committed source row has its row in the destination, and that row says of it what
      the transform promises. */
  lemma CommittedRows(w: World, actions: seq<Action>, importName: string, c: Content, k: nat)
    requires Injective(w) && Valid(c)
    requires var st, digest := Run(w, actions), DigestOf(w, c);
      k < PositionOf(st, JobKey(importName, digest, Cursor)) + PositionOf(st, JobKey(importName, digest, Paging))
    ensures var key := RowKey(importName, DigestOf(w, c), (if k < |c| then c[k].customerId else 0));
      k < |c| && key in Run(w, actions).table && Transformed(w, c[k], Run(w, actions).table[key])
  {
    hide Project, DigestOf, Run, Transformed;
    DestinationIsPrefix(w, actions, importName, c);
    ProjectTransforms(w, c[k]);
  }

  /** The destination holds nothing else under that import name and content. */
  lemma NothingElse(w: World, actions: seq<Action>, importName: string, c: Content, id: int)
    requires Injective(w) && Valid(c) && RowKey(importName, DigestOf(w, c), id) in Run(w, actions).table
    ensures var st, digest := Run(w, actions), DigestOf(w, c);
      var p := PositionOf(st, JobKey(importName, digest, Cursor)) + PositionOf(st, JobKey(importName, digest, Paging));
      p <= |c| && exists k :: 0 <= k < p && c[k].customerId == id
  {
    hide Project, DigestOf, Run;
    DestinationIsPrefix(w, actions, importName, c);
    var st, digest := Run(w, actions), DigestOf(w, c);
    var p := PositionOf(st, JobKey(importName, digest, Cursor)) + PositionOf(st, JobKey(importName, digest, Paging));
    assert Among(c, p, id);
  }

  /** The launcher's refusal: over a nonterminal or completed instance nothing is recorded and the process is gone. */
  lemma LaunchRefused(w: World, st: State, pid: nat)
    requires pid in st.live && st.live[pid].stage.Digested?
    requires var key := JobKey(st.live[pid].importName, st.live[pid].stage.digest, st.live[pid].mode);
      && key in st.instances && st.instances[key].executions != []
      && st.instances[key].executions[|st.instances[key].executions| - 1] != Failed
    ensures var next := Step(w, st, Launch(pid));
      next.instances == st.instances && next.table == st.table && pid !in next.live
  {
  }

  /** A completed execution, whatever its chunk size, means the destination holds the whole projection, and the
      other reader mode has committed nothing and, unless the content is empty, has never completed. */
  lemma CompletedIsWhole(w: World, actions: seq<Action>, importName: string, c: Content, mode: Mode)
    requires Injective(w) && Valid(c)
    requires var st := Run(w, actions);
      var key := JobKey(importName, DigestOf(w, c), mode);
      key in st.instances && Completed in st.instances[key].executions
    ensures var st := Run(w, actions);
      && HoldsPrefix(w, st.table, importName, DigestOf(w, c), c, |c|)
      && forall other: Mode | other != mode ::
           PositionOf(st, JobKey(importName, DigestOf(w, c), other)) == 0
           && (c != [] && JobKey(importName, DigestOf(w, c), other) in st.instances ==>
               Completed !in st.instances[JobKey(importName, DigestOf(w, c), other)].executions)
  {
    hide Project, DigestOf, Run, Valid;
    RunInvariant(w, actions);
    var st := Run(w, actions);
    assert ScopeOk(w, st, importName, c);
    assert CompletedOk(w, st, importName, c, Cursor) && CompletedOk(w, st, importName, c, Paging);
    assert mode == Cursor || mode == Paging;
  }

  /** Committed positions never decrease, whatever the step. */
  lemma PositionsRise(w: World, st: State, a: Action)
    requires Invariant(w, st) && Injective(w)
    ensures forall key :: PositionOf(st, key) <= PositionOf(Step(w, st, a), key)
  {
    hide Valid, DigestOf, HoldsPrefix, Insert, Conflicts;
    if a.Chunk? && a.pid in st.live && st.live[a.pid].stage.Launched? {
      var p := st.live[a.pid];
      var key, pos := KeyOf(p, p.stage.digest), p.stage.position;
      if pos < |st.source| && p.chunkSize > 0 && key in st.instances {
        var next := if pos + p.chunkSize < |st.source| then pos + p.chunkSize else |st.source|;
        var rows := st.source[pos..next];
        if !(exists r :: r in rows && w.blank(r.fullName)) && !Conflicts(st.table, p.importName, p.stage.digest, rows) {
          assert ProcessOk(w, st, p);
          assert ScopeOk(w, st, p.importName, st.source);
          OnlyNextCommits(w, st, p.importName, st.source, p.mode, pos, next);
        }
      }
    }
  }

  lemma {:induction false} RunRises(w: World, actions: seq<Action>, more: seq<Action>)
    requires Injective(w)
    ensures forall key :: PositionOf(Run(w, actions), key) <= PositionOf(Run(w, actions + more), key)
    decreases |more|
  {
    hide Invariant, Step, PositionOf;
    if more == [] {
      assert actions + more == actions;
    } else {
      var n := |more| - 1;
      var all := actions + more;
      assert all[..|all| - 1] == actions + more[..n] && all[|all| - 1] == more[n];
      RunRises(w, actions, more[..n]);
      RunInvariant(w, actions + more[..n]);
      PositionsRise(w, Run(w, actions + more[..n]), more[n]);
      forall key ensures PositionOf(Run(w, actions), key) <= PositionOf(Run(w, all), key) {
        assert PositionOf(Run(w, actions + more[..n]), key) <= PositionOf(Step(w, Run(w, actions + more[..n]), more[n]), key);
      }
    }
  }

  /** Once one reader mode has committed rows of a content under an import name, no later run of the other mode ever
      commits or completes over it. */
  lemma OtherModeNeverCompletes(w: World, actions: seq<Action>, more: seq<Action>, importName: string, c: Content, mode: Mode, other: Mode)
    requires Injective(w) && Valid(c) && other != mode
    requires PositionOf(Run(w, actions), JobKey(importName, DigestOf(w, c), mode)) > 0
    ensures var st := Run(w, actions + more);
      var key := JobKey(importName, DigestOf(w, c), other);
      PositionOf(st, key) == 0 && (key in st.instances ==> Completed !in st.instances[key].executions)
  {
    hide Project, DigestOf, Run, Valid;
    RunRises(w, actions, more);
    RunInvariant(w, actions + more);
    var st := Run(w, actions + more);
    assert ScopeOk(w, st, importName, c);
    assert CompletedOk(w, st, importName, c, other);
    assert (mode == Cursor && other == Paging) || (mode == Paging && other == Cursor);
  }

  // --------------------------------------------------------- what verify sees --

  /** `rows` is what the verifier's destination query returns for the scope. */
  ghost predicate Listing(t: Table, importName: string, digest: nat, rows: seq<ProjectedRow>) {
    && MergeVerify.Ascending(rows)
    && (forall r | r in rows :: RowKey(importName, digest, r.customerId) in t && t[RowKey(importName, digest, r.customerId)] == r)
    && (forall id: int :: RowKey(importName, digest, id) in t ==> id in MergeVerify.Ids(rows))
  }

  lemma AscendingProjection(w: World, c: Content)
    requires Valid(c)
    ensures MergeVerify.Ascending(ProjectAll(w, c))
  {
    hide NulFree;
  }

  lemma {:induction false} SameIdsSameLength(a: seq<ProjectedRow>, b: seq<ProjectedRow>)
    requires MergeVerify.Ascending(a) && MergeVerify.Ascending(b) && forall r :: r in a <==> r in b
    ensures a == b
    decreases |a| + |b|
  {
    MergeVerify.MismatchesExactly(a, b);
    MergeVerify.NoneExactly(a, b);
    var ms := MergeVerify.Mismatches(a, b);
    if ms != [] {
      assert ms[0] in ms;
      assert MergeVerify.Belongs(a, b, ms[0]);
      NoMismatch(a, b, ms[0]);
    }
  }

  lemma NoMismatch(a: seq<ProjectedRow>, b: seq<ProjectedRow>, m: MergeVerify.Mismatch)
    requires MergeVerify.Ascending(a) && MergeVerify.Ascending(b) && forall r :: r in a <==> r in b
    ensures !MergeVerify.Belongs(a, b, m)
  {
    assert MergeVerify.Ids(a) == MergeVerify.Ids(b);
    forall x, y | x in a && y in b && x.customerId == y.customerId ensures x == y {
      var i :| 0 <= i < |a| && a[i] == x;
      assert y in a;
      var j :| 0 <= j < |a| && a[j] == y;
      assert i == j;
    }
  }

  /** The verifier's query over a scope that holds a prefix returns exactly that prefix's projection. */
  lemma ListingIsPrefix(w: World, t: Table, importName: string, c: Content, p: nat, rows: seq<ProjectedRow>)
    requires Valid(c) && HoldsPrefix(w, t, importName, DigestOf(w, c), c, p) && Listing(t, importName, DigestOf(w, c), rows)
    ensures rows == ProjectAll(w, c[..p])
  {
    assert p <= |c| && MergeVerify.Ascending(rows);
    hide DigestOf, ProjectAll, Valid, HoldsPrefix, Listing, MergeVerify.Ascending;
    assert Valid(c[..p]) by { PrefixValid(c, p); }
    AscendingProjection(w, c[..p]);
    forall r ensures r in rows <==> r in ProjectAll(w, c[..p]) { ListedExactly(w, t, importName, c, p, rows, r); }
    SameIdsSameLength(rows, ProjectAll(w, c[..p]));
  }

  lemma PrefixValid(c: Content, p: nat)
    requires Valid(c) && p <= |c|
    ensures Valid(c[..p])
  {
    hide NulFree;
  }

  lemma ListedExactly(w: World, t: Table, importName: string, c: Content, p: nat, rows: seq<ProjectedRow>, r: ProjectedRow)
    requires HoldsPrefix(w, t, importName, DigestOf(w, c), c, p) && Listing(t, importName, DigestOf(w, c), rows)
    ensures r in rows <==> r in ProjectAll(w, c[..p])
  {
    hide DigestOf, MergeVerify.Ascending;
    var q, digest := ProjectAll(w, c[..p]), DigestOf(w, c);
    assert forall i | 0 <= i < p :: q[i] == Project(w, c[i]) && Project(w, c[i]).customerId == c[i].customerId;
    if r in q {
      var k :| 0 <= k < p && q[k] == r;
      assert RowKey(importName, digest, c[k].customerId) in t;
      assert r.customerId in MergeVerify.Ids(rows);
    }
    if r in rows {
      assert RowKey(importName, digest, r.customerId) in t;
      assert Among(c, p, r.customerId);
      var k :| 0 <= k < p && c[k].customerId == r.customerId;
      assert q[k] == r;
    }
  }

  /** Over expected rows and a prefix of them the merge reports the rest, in order, as missing. */
  lemma {:induction false} MissingTail(expected: seq<ProjectedRow>, p: nat)
    requires MergeVerify.Ascending(expected) && p <= |expected|
    ensures |MergeVerify.Mismatches(expected, expected[..p])| == |expected| - p
    ensures forall k | 0 <= k < |expected| - p ::
      MergeVerify.Mismatches(expected, expected[..p])[k] == MergeVerify.Missing(expected[p + k].customerId)
    decreases |expected|
  {
    hide MergeVerify.Mismatches;
    MismatchesUnfold(expected, p);
    if expected != [] {
      if p > 0 {
        assert expected[..p][1..] == expected[1..][..p - 1];
        MissingTail(expected[1..], p - 1);
      } else {
        assert expected[..0] == [] && expected[1..][..0] == [];
        MissingTail(expected[1..], 0);
      }
    }
  }

  lemma MismatchesUnfold(expected: seq<ProjectedRow>, p: nat)
    requires p <= |expected|
    ensures var here := MergeVerify.Mismatches(expected, expected[..p]);
      if expected == [] then here == []
      else if p == 0 then here == [MergeVerify.Missing(expected[0].customerId)] + MergeVerify.Mismatches(expected[1..], expected[..0])
      else here == MergeVerify.Mismatches(expected[1..], expected[..p][1..])
  {
    hide MergeVerify.Ascending;
  }

  lemma PrefixProjects(w: World, c: Content, p: nat)
    requires p <= |c|
    ensures ProjectAll(w, c[..p]) == ProjectAll(w, c)[..p]
  {
  }

  /** At any moment the verifier's verdict on the live source tells the committed position: it misses exactly the
      rows not committed yet, so it passes exactly when everything has been. */
  lemma VerifierSeesPosition(w: World, actions: seq<Action>, importName: string, rows: seq<ProjectedRow>)
    requires Injective(w)
    requires var st := Run(w, actions); Listing(st.table, importName, DigestOf(w, st.source), rows)
    ensures var st := Run(w, actions);
      var digest := DigestOf(w, st.source);
      var p := PositionOf(st, JobKey(importName, digest, Cursor)) + PositionOf(st, JobKey(importName, digest, Paging));
      var ms := MergeVerify.Mismatches(ProjectAll(w, st.source), rows);
      && p <= |st.source| && |ms| == |st.source| - p
      && (forall k | 0 <= k < |ms| :: ms[k] == MergeVerify.Missing(st.source[p + k].customerId))
      && (rows == ProjectAll(w, st.source) <==> p == |st.source|)
  {
    hide DigestOf, Run, Valid, Listing, PositionOf, MergeVerify.Mismatches, MergeVerify.Ascending;
    RunInvariant(w, actions);
    var st := Run(w, actions);
    assert ScopeOk(w, st, importName, st.source);
    var digest := DigestOf(w, st.source);
    var p := PositionOf(st, JobKey(importName, digest, Cursor)) + PositionOf(st, JobKey(importName, digest, Paging));
    ListingIsPrefix(w, st.table, importName, st.source, p, rows);
    PrefixProjects(w, st.source, p);
    AscendingProjection(w, st.source);
    MissingTail(ProjectAll(w, st.source), p);
  }

  // ------------------------------------------------------- recovery is enough --

  ghost function After(w: World, st: State, actions: seq<Action>): State
    decreases |actions|
  {
    if actions == [] then st else After(w, Step(w, st, actions[0]), actions[1..])
  }

  /** A launched process whose position is everything its scope holds. */
  ghost predicate OnCourse(w: World, st: State, pid: nat) {
    pid in st.live && st.live[pid].stage.Launched? && st.live[pid].chunkSize > 0 &&
    var p := st.live[pid];
    var key := KeyOf(p, p.stage.digest);
    && key in st.instances && st.instances[key].position == p.stage.position
    && p.stage.execution < |st.instances[key].executions|
    && (forall m: Mode | m != p.mode :: PositionOf(st, JobKey(p.importName, p.stage.digest, m)) == 0)
    && (forall r | r in st.source :: !w.blank(r.fullName))
  }

  lemma NoConflictAhead(w: World, t: Table, importName: string, digest: nat, c: Content, p: nat, next: nat)
    requires Valid(c) && HoldsPrefix(w, t, importName, digest, c, p) && p <= next <= |c|
    ensures !Conflicts(t, importName, digest, c[p..next])
  {
    hide Project, NulFree;
    forall r | r in c[p..next] ensures RowKey(importName, digest, r.customerId) !in t {
      var k :| 0 <= k < next - p && c[p..next][k] == r;
      assert c[p + k] == r;
      assert !Among(c, p, r.customerId);
    }
  }

  lemma ChunkOnCourse(w: World, st: State, pid: nat)
    requires Invariant(w, st) && OnCourse(w, st, pid) && st.live[pid].stage.position < |st.source|
    ensures var b := Step(w, st, Chunk(pid, true));
      pid in b.live &&
      var p, q := st.live[pid], b.live[pid];
      && OnCourse(w, b, pid) && b.source == st.source
      && q.stage.position > p.stage.position && q.importName == p.importName && q.mode == p.mode
      && q.stage.digest == p.stage.digest && q.stage.execution == p.stage.execution
  {
    hide HoldsPrefix, Valid, DigestOf, Insert, Conflicts;
    var p := st.live[pid];
    var pos := p.stage.position;
    assert ProcessOk(w, st, p);
    assert ScopeOk(w, st, p.importName, st.source);
    assert p.mode == Cursor || p.mode == Paging;
    assert HoldsPrefix(w, st.table, p.importName, p.stage.digest, st.source, pos);
    var next := if pos + p.chunkSize < |st.source| then pos + p.chunkSize else |st.source|;
    NoConflictAhead(w, st.table, p.importName, p.stage.digest, st.source, pos, next);
    assert forall r | r in st.source[pos..next] :: r in st.source;
  }

  /** Left alone, such a process commits the rest of the content and completes. */
  lemma {:induction false} Completes(w: World, st: State, pid: nat) returns (actions: seq<Action>)
    requires Invariant(w, st) && Injective(w) && OnCourse(w, st, pid)
    ensures forall a | a in actions :: a == Chunk(pid, true) || a == Finish(pid, true)
    ensures var p := st.live[pid];
      var key := KeyOf(p, p.stage.digest);
      var b := After(w, st, actions);
      && key in b.instances && p.stage.execution < |b.instances[key].executions|
      && b.instances[key].executions[p.stage.execution] == Completed && b.source == st.source && Invariant(w, b)
    decreases |st.source| - st.live[pid].stage.position
  {
    hide Invariant, Chunking;
    var p := st.live[pid];
    if p.stage.position >= |st.source| {
      actions := [Finish(pid, true)];
      StepInvariant(w, st, Finish(pid, true));
      assert After(w, Step(w, st, actions[0]), actions[1..]) == Step(w, st, actions[0]);
    } else {
      var b := Step(w, st, Chunk(pid, true));
      ChunkOnCourse(w, st, pid);
      StepInvariant(w, st, Chunk(pid, true));
      var rest := Completes(w, b, pid);
      actions := [Chunk(pid, true)] + rest;
      assert actions[1..] == rest;
    }
  }

  function Recover(importName: string, mode: Mode): seq<Action> {
    [ArriveToRecover(0, importName, mode), RememberDigest(0), LookUp(0), MarkFailed(0)]
  }

  function Relaunch(importName: string, mode: Mode, chunkSize: nat): seq<Action> {
    [Arrive(1, importName, mode, chunkSize), ComputeDigest(1), Launch(1)]
  }

  /** Nothing is live and the latest execution of the instance that the source identifies is nonterminal. */
  ghost predicate Crashed(w: World, st: State, importName: string, mode: Mode) {
    var key := JobKey(importName, DigestOf(w, st.source), mode);
    && Invariant(w, st) && st.live == map[] && key in st.instances && st.instances[key].executions != []
    && st.instances[key].executions[|st.instances[key].executions| - 1] == Running
  }

  lemma AfterOne(w: World, st: State, a: Action, rest: seq<Action>)
    ensures After(w, st, [a] + rest) == After(w, Step(w, st, a), rest)
  {
    assert ([a] + rest)[1..] == rest;
  }

  lemma {:induction false} AfterInvariant(w: World, st: State, actions: seq<Action>)
    requires Invariant(w, st) && Injective(w)
    ensures Invariant(w, After(w, st, actions))
    decreases |actions|
  {
    hide Invariant, Step;
    if actions != [] {
      StepInvariant(w, st, actions[0]);
      AfterInvariant(w, Step(w, st, actions[0]), actions[1..]);
    }
  }

  /** The first three steps of recovery find the latest execution. */
  lemma RecoveryFinds(w: World, st: State, importName: string, mode: Mode)
    requires Crashed(w, st, importName, mode)
    ensures var digest := DigestOf(w, st.source);
      var last := |st.instances[JobKey(importName, digest, mode)].executions| - 1;
      Step(w, Step(w, Step(w, st, ArriveToRecover(0, importName, mode)), RememberDigest(0)), LookUp(0))
        == st.(live := map[0 := Process(importName, mode, 0, Looked(digest, last))])
  {
    hide Invariant, DigestOf, Chunking, Launching, Conflicts;
    var s1 := Step(w, st, ArriveToRecover(0, importName, mode));
    assert s1 == st.(live := map[0 := Process(importName, mode, 0, Recovering)]);
    var s2 := Step(w, s1, RememberDigest(0));
    assert s2 == st.(live := map[0 := Process(importName, mode, 0, Remembered(DigestOf(w, st.source)))]);
  }

  /** Recovery marks that execution failed and changes nothing else. */
  lemma RecoveryMarks(w: World, st: State, importName: string, mode: Mode)
    requires Crashed(w, st, importName, mode)
    ensures var key := JobKey(importName, DigestOf(w, st.source), mode);
      var i := st.instances[key];
      After(w, st, Recover(importName, mode))
        == st.(instances := st.instances[key := i.(executions := i.executions[|i.executions| - 1 := Failed])])
  {
    RecoveryFinds(w, st, importName, mode);
    hide Invariant, DigestOf, After, Step;
    var a, b, c, d := ArriveToRecover(0, importName, mode), RememberDigest(0), LookUp(0), MarkFailed(0);
    assert Recover(importName, mode) == [a] + ([b] + ([c] + ([d] + [])));
    AfterOne(w, st, a, [b] + ([c] + ([d] + [])));
    AfterOne(w, Step(w, st, a), b, [c] + ([d] + []));
    AfterOne(w, Step(w, Step(w, st, a), b), c, [d] + []);
    var found := Step(w, Step(w, Step(w, st, a), b), c);
    AfterOne(w, found, d, []);
    AfterNone(w, Step(w, found, d));
    StepMarks(w, found);
    assert found.live - {0} == st.live;
  }

  lemma StepMarks(w: World, st: State)
    requires 0 in st.live && st.live[0].stage.Looked?
    ensures Step(w, st, MarkFailed(0)) == Marking(st, 0)
  {
  }

  lemma AfterNone(w: World, st: State)
    ensures After(w, st, []) == st
  {
  }

  /** A launch over an instance whose latest execution failed resumes at its committed position. */
  lemma RelaunchOnCourse(w: World, st: State, importName: string, mode: Mode, chunkSize: nat)
    requires st.live == map[] && chunkSize > 0
    requires var key := JobKey(importName, DigestOf(w, st.source), mode);
      && key in st.instances && st.instances[key].executions != []
      && st.instances[key].executions[|st.instances[key].executions| - 1] == Failed
      && forall m: Mode | m != mode :: PositionOf(st, key.(mode := m)) == 0
    requires forall r | r in st.source :: !w.blank(r.fullName)
    ensures var b := After(w, st, Relaunch(importName, mode, chunkSize));
      && OnCourse(w, b, 1) && b.source == st.source
      && KeyOf(b.live[1], b.live[1].stage.digest) == JobKey(importName, DigestOf(w, st.source), mode)
      && b.live[1].stage.position == PositionOf(st, JobKey(importName, DigestOf(w, st.source), mode))
  {
    hide DigestOf, After, Chunking;
    var a, b, c := Arrive(1, importName, mode, chunkSize), ComputeDigest(1), Launch(1);
    assert Relaunch(importName, mode, chunkSize) == [a] + ([b] + ([c] + []));
    AfterOne(w, st, a, [b] + ([c] + []));
    AfterOne(w, Step(w, st, a), b, [c] + []);
    AfterOne(w, Step(w, Step(w, st, a), b), c, []);
    AfterNone(w, Step(w, Step(w, Step(w, st, a), b), c));
    assert Step(w, Step(w, st, a), b).live[1].stage == Digested(DigestOf(w, st.source));
  }

  /** After a crash, recovery and one undisturbed run complete the import from the committed position. */
  lemma CrashRecoverResume(w: World, st: State, importName: string, mode: Mode, chunkSize: nat) returns (actions: seq<Action>)
    requires Crashed(w, st, importName, mode) && Injective(w) && chunkSize > 0
    requires forall m: Mode | m != mode :: PositionOf(st, JobKey(importName, DigestOf(w, st.source), m)) == 0
    requires forall r | r in st.source :: !w.blank(r.fullName)
    ensures var b := After(w, st, actions);
      b.source == st.source && HoldsPrefix(w, b.table, importName, DigestOf(w, st.source), st.source, |st.source|)
  {
    hide DigestOf, HoldsPrefix, OnCourse, Step, Invariant, After, Recover, Relaunch;
    RecoveryMarks(w, st, importName, mode);
    var a := After(w, st, Recover(importName, mode));
    AfterInvariant(w, st, Recover(importName, mode));
    RelaunchOnCourse(w, a, importName, mode, chunkSize);
    var b := After(w, a, Relaunch(importName, mode, chunkSize));
    AfterInvariant(w, a, Relaunch(importName, mode, chunkSize));
    CourseIsLaunched(w, b, 1);
    var rest := Completes(w, b, 1);
    actions := Recover(importName, mode) + (Relaunch(importName, mode, chunkSize) + rest);
    AfterAppend(w, st, Recover(importName, mode), Relaunch(importName, mode, chunkSize) + rest);
    AfterAppend(w, a, Relaunch(importName, mode, chunkSize), rest);
    WholeOnceCompleted(w, After(w, b, rest), importName, mode);
  }

  lemma CourseIsLaunched(w: World, st: State, pid: nat)
    requires OnCourse(w, st, pid)
    ensures pid in st.live && st.live[pid].stage.Launched?
  {
  }

  lemma {:induction false} AfterAppend(w: World, st: State, first: seq<Action>, rest: seq<Action>)
    ensures After(w, st, first + rest) == After(w, After(w, st, first), rest)
    decreases |first|
  {
    if first == [] {
      assert first + rest == rest;
    } else {
      AfterAppend(w, Step(w, st, first[0]), first[1..], rest);
      assert (first + rest)[1..] == first[1..] + rest;
    }
  }

  lemma WholeOnceCompleted(w: World, st: State, importName: string, mode: Mode)
    requires Invariant(w, st)
    requires var key := JobKey(importName, DigestOf(w, st.source), mode);
      key in st.instances && Completed in st.instances[key].executions
    ensures HoldsPrefix(w, st.table, importName, DigestOf(w, st.source), st.source, |st.source|)
  {
    hide DigestOf, Valid, Project;
    assert ScopeOk(w, st, importName, st.source);
    assert CompletedOk(w, st, importName, st.source, mode);
    assert mode == Cursor || mode == Paging;
  }
}
