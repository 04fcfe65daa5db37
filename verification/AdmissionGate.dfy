/** Occupancy counters and the admission gate of the partition workers, one atomic operation at a time
    (postgres-local-partition/src/main.rs). */
module AdmissionGate {

  /** Where one partition task stands. A slot below the target holds a place at the barrier. */
  datatype Task =
    | Idle
    | Dispatched
    | Entered(seen: nat)
    | Recorded
    | Slotted(slot: nat)
    | Arrived(slot: nat)
    | Waiting(slot: nat)
    | Passed(slot: nat)
    | TimedOut(slot: nat)
    | Gone(slot: nat)

  /** The shared counters; `barrier` counts the calls to `wait` (a timed-out call stays counted). */
  datatype State = State(tasks: seq<Task>, active: nat, peak: nat, nextSlot: nat, arrived: nat, barrier: nat, timedOut: bool)

  predicate InFlight(t: Task) { !t.Idle? && !t.Gone? }

  predicate Inside(t: Task) { InFlight(t) && !t.Dispatched? }

  predicate HasEntered(t: Task) { !t.Idle? && !t.Dispatched? }

  predicate HasSlot(t: Task) { HasEntered(t) && !t.Entered? && !t.Recorded? }

  predicate Holds(t: Task, target: nat) { HasSlot(t) && t.slot < target }

  predicate HasArrived(t: Task, target: nat) { Holds(t, target) && !t.Slotted? }

  predicate HasWaited(t: Task, target: nat) { HasArrived(t, target) && !t.Arrived? }

  predicate HasLeft(t: Task) { t.Passed? || t.TimedOut? || t.Gone? }

  function Count(tasks: seq<Task>, p: Task -> bool): (n: nat)
    ensures n <= |tasks|
  {
    if tasks == [] then 0 else Count(tasks[..|tasks| - 1], p) + if p(tasks[|tasks| - 1]) then 1 else 0
  }

  function Fresh(n: nat): State { State(seq(n, _ => Idle), 0, 0, 0, 0, 0, false) }

  function Max(a: nat, b: nat): nat { if a < b then b else a }

  function Put(st: State, i: nat, t: Task): State
    requires i < |st.tasks|
  {
    st.(tasks := st.tasks[i := t])
  }

  /** The next atomic operation of task i; `timeout` is the admission timer firing while it waits.
      A worker the framework has no free slot for, or one still blocked at the barrier, changes nothing. */
  function Step(workers: nat, st: State, i: nat, timeout: bool): State
    requires i < |st.tasks|
  {
    match st.tasks[i]
    case Idle => if Count(st.tasks, InFlight) < workers then Put(st, i, Dispatched) else st
    case Dispatched => Put(st.(active := st.active + 1), i, Entered(st.active + 1))
    case Entered(seen) => Put(st.(peak := Max(st.peak, seen)), i, Recorded)
    case Recorded =>
      var slot := st.nextSlot;
      Put(st.(nextSlot := slot + 1), i, if slot >= workers then Passed(slot) else Slotted(slot))
    case Slotted(slot) => Put(st.(arrived := st.arrived + 1), i, Arrived(slot))
    case Arrived(slot) => Put(st.(barrier := st.barrier + 1), i, Waiting(slot))
    case Waiting(slot) =>
      if timeout then Put(st.(timedOut := true), i, TimedOut(slot))
      else if st.barrier >= workers then Put(st, i, Passed(slot))
      else st
    case Passed(slot) => Put(st.(active := if st.active == 0 then 0 else st.active - 1), i, Gone(slot))
    case TimedOut(slot) => Put(st.(active := if st.active == 0 then 0 else st.active - 1), i, Gone(slot))
    case Gone(_) => st
  }

  /** A schedule: which task moves, and whether its timer fires. */
  type Schedule = seq<(nat, bool)>

  function Run(workers: nat, n: nat, s: Schedule): (st: State)
    ensures |st.tasks| == n
  {
    if s == [] then Fresh(n)
    else
      var before := Run(workers, n, s[..|s| - 1]);
      var (i, timeout) := s[|s| - 1];
      if i < n then Step(workers, before, i, timeout) else before
  }

  // ---------------------------------------------------------------- counting --

  lemma {:induction false} CountPut(tasks: seq<Task>, i: nat, t: Task, p: Task -> bool)
    requires i < |tasks|
    ensures Count(tasks[i := t], p) + (if p(tasks[i]) then 1 else 0) == Count(tasks, p) + (if p(t) then 1 else 0)
  {
    var n := |tasks| - 1;
    if i < n {
      CountPut(tasks[..n], i, t, p);
      assert tasks[i := t][..n] == tasks[..n][i := t];
    } else {
      assert tasks[i := t][..n] == tasks[..n];
    }
  }

  lemma {:induction false} CountWithin(tasks: seq<Task>, p: Task -> bool, q: Task -> bool)
    requires forall t | t in tasks && p(t) :: q(t)
    ensures Count(tasks, p) <= Count(tasks, q)
    ensures Count(tasks, p) == Count(tasks, q) ==> forall t | t in tasks && q(t) :: p(t)
  {
    if tasks != [] {
      var n := |tasks| - 1;
      assert tasks == tasks[..n] + [tasks[n]];
      CountWithin(tasks[..n], p, q);
    }
  }

  lemma {:induction false} CountNone(tasks: seq<Task>, p: Task -> bool)
    ensures Count(tasks, p) == 0 <==> forall t | t in tasks :: !p(t)
  {
    if tasks != [] {
      var n := |tasks| - 1;
      assert tasks == tasks[..n] + [tasks[n]];
      CountNone(tasks[..n], p);
    }
  }

  lemma {:induction false} CountAll(tasks: seq<Task>, p: Task -> bool)
    requires forall t | t in tasks :: p(t)
    ensures Count(tasks, p) == |tasks|
  {
    if tasks != [] {
      var n := |tasks| - 1;
      assert tasks == tasks[..n] + [tasks[n]];
      CountAll(tasks[..n], p);
    }
  }

  // --------------------------------------------------------------- invariants --

  function Min(a: nat, b: nat): nat { if a < b then a else b }

  function Holder(target: nat): Task -> bool { t => Holds(t, target) }

  function Arrival(target: nat): Task -> bool { t => HasArrived(t, target) }

  function Waiter(target: nat): Task -> bool { t => HasWaited(t, target) }

  /** Only a slot below the target is ever taken to the barrier. */
  predicate Shaped(workers: nat, st: State, t: Task) {
    && (HasSlot(t) ==> t.slot < st.nextSlot)
    && (t.Slotted? || t.Arrived? || t.Waiting? || t.TimedOut? ==> t.slot < workers)
  }

  /** Each counter counts what it should. */
  ghost predicate Counted(workers: nat, st: State) {
    && (forall t | t in st.tasks :: Shaped(workers, st, t))
    && st.active == Count(st.tasks, Inside)
    && st.nextSlot == Count(st.tasks, HasSlot)
    && Min(st.nextSlot, workers) == Count(st.tasks, Holder(workers))
    && st.arrived == Count(st.tasks, Arrival(workers))
    && st.barrier == Count(st.tasks, Waiter(workers))
    && Count(st.tasks, InFlight) <= workers
  }

  lemma ShapedStep(workers: nat, st: State, i: nat, timeout: bool)
    requires (forall t | t in st.tasks :: Shaped(workers, st, t)) && i < |st.tasks|
    ensures var next := Step(workers, st, i, timeout);
      Shaped(workers, st, st.tasks[i]) && forall t | t in next.tasks :: Shaped(workers, next, t)
  {
    hide Count;
    var next := Step(workers, st, i, timeout);
    assert Shaped(workers, st, st.tasks[i]);
    forall t | t in next.tasks ensures Shaped(workers, next, t) {
      assert t == next.tasks[i] || t in st.tasks;
      assert t in st.tasks ==> Shaped(workers, st, t);
    }
  }

  lemma CountedStep(workers: nat, st: State, i: nat, timeout: bool)
    requires Counted(workers, st) && i < |st.tasks|
    ensures Counted(workers, Step(workers, st, i, timeout))
  {
    hide Count;
    var next := Step(workers, st, i, timeout);
    ShapedStep(workers, st, i, timeout);
    assert next == st || next.tasks == st.tasks[i := next.tasks[i]];
    if next != st {
      CountPut(st.tasks, i, next.tasks[i], Inside);
      CountPut(st.tasks, i, next.tasks[i], HasSlot);
      CountPut(st.tasks, i, next.tasks[i], Holder(workers));
      CountPut(st.tasks, i, next.tasks[i], Arrival(workers));
      CountPut(st.tasks, i, next.tasks[i], Waiter(workers));
      CountPut(st.tasks, i, next.tasks[i], InFlight);
    }
  }

  lemma CountedStart(workers: nat, n: nat)
    ensures Counted(workers, Fresh(n))
  {
    var tasks := Fresh(n).tasks;
    CountNone(tasks, Inside);
    CountNone(tasks, HasSlot);
    CountNone(tasks, Holder(workers));
    CountNone(tasks, Arrival(workers));
    CountNone(tasks, Waiter(workers));
    CountNone(tasks, InFlight);
  }

  // ----------------------------------------------------------------- the gate --

  /** While the barrier is still closed and no timer has fired, no task has left. */
  ghost predicate Closed(workers: nat, st: State) {
    !st.timedOut && st.barrier < workers ==> forall t | t in st.tasks :: !HasLeft(t)
  }

  /** The highest count seen so far is in the peak, or about to be. */
  ghost predicate Covered(st: State) {
    st.peak >= Count(st.tasks, HasEntered) || exists t :: t in st.tasks && t.Entered? && t.seen >= Count(st.tasks, HasEntered)
  }

  ghost predicate PeakBounded(workers: nat, st: State) {
    st.peak <= workers && forall t | t in st.tasks && t.Entered? :: t.seen <= workers
  }

  ghost predicate PassedLate(workers: nat, st: State) {
    (exists t :: t in st.tasks && t.Passed?) ==> st.nextSlot >= workers
  }

  ghost predicate PeakReached(workers: nat, st: State) {
    !st.timedOut ==> if st.barrier < workers then Covered(st) else st.peak >= workers
  }

  ghost predicate Invariant(workers: nat, st: State) {
    Counted(workers, st) && PeakBounded(workers, st) && PassedLate(workers, st) && Closed(workers, st) && PeakReached(workers, st)
  }

  lemma {:induction false} CountStrict(tasks: seq<Task>, i: nat, p: Task -> bool, q: Task -> bool)
    requires i < |tasks| && q(tasks[i]) && !p(tasks[i]) && forall t | t in tasks && p(t) :: q(t)
    ensures Count(tasks, p) < Count(tasks, q)
  {
    CountWithin(tasks, p, q);
    assert tasks[i] in tasks;
  }

  /** What a step changes: one task, and counters that only grow. */
  lemma StepTasks(workers: nat, st: State, i: nat, timeout: bool)
    requires i < |st.tasks|
    ensures var next := Step(workers, st, i, timeout);
      && |next.tasks| == |st.tasks| && next.tasks == st.tasks[i := next.tasks[i]]
      && next.nextSlot >= st.nextSlot && next.barrier >= st.barrier && next.peak >= st.peak && (st.timedOut ==> next.timedOut)
      && (forall t | t in next.tasks :: t == next.tasks[i] || t in st.tasks)
      && (forall t | t in st.tasks :: t == st.tasks[i] || t in next.tasks)
  {
    hide Count;
    var next := Step(workers, st, i, timeout);
    forall t | t in st.tasks ensures t == st.tasks[i] || t in next.tasks {
      var k :| 0 <= k < |st.tasks| && st.tasks[k] == t;
      assert k == i || next.tasks[k] == t;
    }
  }

  lemma PeakBoundedStep(workers: nat, st: State, i: nat, timeout: bool)
    requires Counted(workers, st) && PeakBounded(workers, st) && i < |st.tasks|
    ensures PeakBounded(workers, Step(workers, st, i, timeout))
  {
    hide Count;
    StepTasks(workers, st, i, timeout);
    assert st.tasks[i] in st.tasks;
    if st.tasks[i].Dispatched? { CountStrict(st.tasks, i, Inside, InFlight); }
  }

  lemma PassedLateStep(workers: nat, st: State, i: nat, timeout: bool)
    requires Counted(workers, st) && PassedLate(workers, st) && i < |st.tasks|
    ensures PassedLate(workers, Step(workers, st, i, timeout))
  {
    hide Count;
    StepTasks(workers, st, i, timeout);
    CountWithin(st.tasks, Waiter(workers), Holder(workers));
  }

  lemma ClosedStep(workers: nat, st: State, i: nat, timeout: bool)
    requires Counted(workers, st) && Closed(workers, st) && i < |st.tasks|
    ensures Closed(workers, Step(workers, st, i, timeout))
  {
    hide Count;
    StepTasks(workers, st, i, timeout);
    assert st.tasks[i] in st.tasks;
    if !st.timedOut && st.barrier < workers && st.tasks[i].Recorded? {
      CountStrict(st.tasks, i, Holder(workers), InFlight);
      assert st.nextSlot < workers;
    }
  }

  lemma CoveredStep(workers: nat, st: State, i: nat, timeout: bool)
    requires Counted(workers, st) && Closed(workers, st) && Covered(st) && i < |st.tasks|
    requires !st.timedOut && st.barrier < workers
    ensures Covered(Step(workers, st, i, timeout))
  {
    hide Count;
    var next := Step(workers, st, i, timeout);
    StepTasks(workers, st, i, timeout);
    CountPut(st.tasks, i, next.tasks[i], HasEntered);
    assert st.tasks[i] in st.tasks && next.tasks[i] in next.tasks;
    CountWithin(st.tasks, HasEntered, Inside);
    if !(st.peak >= Count(st.tasks, HasEntered)) && !st.tasks[i].Dispatched? {
      var t :| t in st.tasks && t.Entered? && t.seen >= Count(st.tasks, HasEntered);
      assert t == st.tasks[i] || t in next.tasks;
    }
  }

  /** The moment the barrier opens every task in flight is waiting at it, so every count has been recorded. */
  lemma OpeningStep(workers: nat, st: State, i: nat, timeout: bool)
    requires Invariant(workers, st) && i < |st.tasks| && !st.timedOut && st.barrier < workers
    requires Step(workers, st, i, timeout).barrier >= workers
    ensures Step(workers, st, i, timeout).peak >= workers
  {
    hide Count;
    var next := Step(workers, st, i, timeout);
    StepTasks(workers, st, i, timeout);
    CountedStep(workers, st, i, timeout);
    assert st.tasks[i].Arrived?;
    CoveredStep(workers, st, i, timeout);
    assert next.tasks[i] in next.tasks && st.tasks[i] in st.tasks;
    assert forall t | t in next.tasks :: !HasLeft(t);
    CountWithin(next.tasks, Waiter(workers), InFlight);
    CountWithin(next.tasks, Waiter(workers), HasEntered);
    assert forall t | t in next.tasks && InFlight(t) :: Waiter(workers)(t);
  }

  lemma StepInvariant(workers: nat, st: State, i: nat, timeout: bool)
    requires Invariant(workers, st) && i < |st.tasks|
    ensures Invariant(workers, Step(workers, st, i, timeout))
  {
    hide Counted, Covered, Closed, PeakBounded, PassedLate, Step;
    var next := Step(workers, st, i, timeout);
    StepTasks(workers, st, i, timeout);
    CountedStep(workers, st, i, timeout);
    PeakBoundedStep(workers, st, i, timeout);
    PassedLateStep(workers, st, i, timeout);
    ClosedStep(workers, st, i, timeout);
    if !next.timedOut && st.barrier < workers {
      if next.barrier < workers { CoveredStep(workers, st, i, timeout); } else { OpeningStep(workers, st, i, timeout); }
    }
  }

  lemma {:induction false} RunInvariant(workers: nat, n: nat, s: Schedule)
    ensures Invariant(workers, Run(workers, n, s))
    decreases |s|
  {
    hide Invariant, Step;
    if s == [] {
      Start(workers, n);
    } else {
      RunInvariant(workers, n, s[..|s| - 1]);
      if s[|s| - 1].0 < n { StepInvariant(workers, Run(workers, n, s[..|s| - 1]), s[|s| - 1].0, s[|s| - 1].1); }
    }
  }

  lemma Start(workers: nat, n: nat)
    ensures Invariant(workers, Fresh(n))
  {
    hide Counted;
    CountedStart(workers, n);
    CountNone(Fresh(n).tasks, HasEntered);
  }

  // --------------------------------------------------------------- main results --

  /** No worker passes the gate before as many workers as the target have entered, timers or not. */
  lemma NobodyPassesEarly(workers: nat, n: nat, s: Schedule)
    requires exists t :: t in Run(workers, n, s).tasks && t.Passed?
    ensures Count(Run(workers, n, s).tasks, HasEntered) >= workers
  {
    hide Count, Run;
    RunInvariant(workers, n, s);
    CountWithin(Run(workers, n, s).tasks, HasSlot, HasEntered);
  }

  /** Once no task is in flight the active counter is back at zero, whichever tasks timed out or failed. */
  lemma ActiveReturnsToZero(workers: nat, n: nat, s: Schedule)
    requires forall t | t in Run(workers, n, s).tasks :: !InFlight(t)
    ensures Run(workers, n, s).active == 0
  {
    hide Count, Run;
    RunInvariant(workers, n, s);
    CountNone(Run(workers, n, s).tasks, Inside);
  }

  /** The recorded peak never exceeds the workers, and after a run of at least that many partitions in which every
      task finished and no timer fired it is exactly the number of workers. */
  lemma PeakIsExact(workers: nat, n: nat, s: Schedule)
    ensures Run(workers, n, s).peak <= workers
    ensures n >= workers && !Run(workers, n, s).timedOut && (forall t | t in Run(workers, n, s).tasks :: t.Gone?)
      ==> Run(workers, n, s).peak == workers
  {
    hide Count, Run, Covered;
    RunInvariant(workers, n, s);
    var st := Run(workers, n, s);
    if n >= workers && !st.timedOut && forall t | t in st.tasks :: t.Gone? {
      CountAll(st.tasks, HasSlot);
      CountWithin(st.tasks, Holder(workers), Waiter(workers));
    }
  }

  /** Some task can move without its timer firing. */
  ghost predicate CanMove(workers: nat, st: State) {
    exists i :: 0 <= i < |st.tasks| && Moves(workers, st, i)
  }

  ghost predicate Moves(workers: nat, st: State, i: nat)
    requires i < |st.tasks|
  {
    Step(workers, st, i, false) != st
  }

  /** With at least as many partitions as workers the gate never deadlocks: until a timer fires, either every task
      has finished or one can move. */
  lemma NeverStuck(workers: nat, n: nat, s: Schedule)
    requires n >= workers > 0
    ensures var st := Run(workers, n, s);
      st.timedOut || (forall t | t in st.tasks :: t.Gone?) || CanMove(workers, st)
  {
    hide Count, Run, Covered;
    RunInvariant(workers, n, s);
    var st := Run(workers, n, s);
    if !st.timedOut && exists t :: t in st.tasks && !t.Gone? {
      var i :| 0 <= i < n && !st.tasks[i].Gone?;
      if forall t | t in st.tasks :: t.Idle? || t.Waiting? || t.Gone? {
        if st.barrier >= workers {
          if exists k :: 0 <= k < n && st.tasks[k].Waiting? {
            var k :| 0 <= k < n && st.tasks[k].Waiting?;
            assert Moves(workers, st, k);
          } else {
            CountNone(st.tasks, InFlight);
            assert st.tasks[i].Idle?;
            assert Moves(workers, st, i);
          }
        } else {
          IdleCanMove(workers, st);
        }
      } else {
        var t :| t in st.tasks && !(t.Idle? || t.Waiting? || t.Gone?);
        var k :| 0 <= k < n && st.tasks[k] == t;
        assert Moves(workers, st, k);
      }
    }
  }

  lemma IdleCanMove(workers: nat, st: State)
    requires Invariant(workers, st) && !st.timedOut && st.barrier < workers <= |st.tasks|
    requires forall t | t in st.tasks :: t.Idle? || t.Waiting? || t.Gone?
    ensures CanMove(workers, st)
  {
    hide Count, Covered;
    assert forall t | t in st.tasks :: !HasLeft(t);
    assert forall t | t in st.tasks && InFlight(t) :: Shaped(workers, st, t) && Waiter(workers)(t);
    CountWithin(st.tasks, InFlight, Waiter(workers));
    if forall t | t in st.tasks :: InFlight(t) {
      CountAll(st.tasks, InFlight);
    } else {
      var t :| t in st.tasks && !InFlight(t);
      var k :| 0 <= k < |st.tasks| && st.tasks[k] == t;
      assert Moves(workers, st, k);
    }
  }

  /** A restart that dispatches fewer tasks than the target: nobody ever passes, and the barrier never opens. */
  lemma TooFewNeverPass(workers: nat, n: nat, s: Schedule)
    requires n < workers
    ensures forall t | t in Run(workers, n, s).tasks :: !t.Passed?
    ensures Run(workers, n, s).barrier < workers
  {
    hide Count, Run;
    RunInvariant(workers, n, s);
    CountWithin(Run(workers, n, s).tasks, Waiter(workers), Holder(workers));
  }
}
