/** The resource sampler and the iteration it observes, one lock section at a time (endurance/sampling.rs). */
module Sampler {
  import opened Decimal

  datatype Kind =
    | SamplerStart | ProcessRoleStart | CrashMarkerObserved | PostCrashState | PostCleanup
    | TerminalSuccess | TerminalFailure

  datatype Target = Target(pid: nat, role: string)

  /** `BoundaryRequest`. */
  datatype Request = Request(kind: Kind, process: Option<Target>)

  /** `SamplerState`, behind its mutex. */
  datatype Shared = Shared(active: Option<Target>, boundaries: seq<Request>, failure: bool, started: bool, stop: bool)

  const INITIAL := Shared(None, [], false, false, false)

  /** One observer lock section: it fails, and changes nothing, once the sampler has failed. */
  function Pushed(s: Shared, r: Request): Shared {
    if s.failure then s
    else s.(boundaries := s.boundaries + [r], started := s.started || r.kind.SamplerStart?,
            active := if r.kind.ProcessRoleStart? then r.process else s.active)
  }

  function Cleared(s: Shared): Shared { if s.failure then s else s.(active := None) }

  /** The observer's last section, and the sampler's three: taking the queue, deciding to stop, reporting a failure. */
  function StopSet(s: Shared): Shared { s.(stop := true) }

  function Drained(s: Shared): Shared { s.(boundaries := []) }

  predicate MayStop(s: Shared) { s.stop && s.boundaries == [] }

  function FailureSet(s: Shared): Shared { s.(failure := true, stop := true) }

  /** The state behind the mutex as the two tasks use it, a method for each lock section. */
  class SharedState {
    var active: Option<Target>
    var boundaries: seq<Request>
    var failure: bool
    var started: bool
    var stop: bool

    ghost function View(): Shared
      reads this
    {
      Shared(active, boundaries, failure, started, stop)
    }

    constructor ()
      ensures View() == INITIAL
    {
      active, boundaries, failure, started, stop := None, [], false, false, false;
    }

    /** `enqueue_boundary` and `enqueue_terminal`. */
    method EnqueueBoundary(kind: Kind) returns (ok: bool)
      requires !kind.ProcessRoleStart?
      modifies this
      ensures ok <==> !old(failure)
      ensures View() == Pushed(old(View()), Request(kind, None))
    {
      if failure { return false; }
      if kind.SamplerStart? { started := true; }
      boundaries := boundaries + [Request(kind, None)];
      ok := true;
    }

    method SetProcess(target: Target) returns (ok: bool)
      modifies this
      ensures ok <==> !old(failure)
      ensures !old(failure) ==> active == Some(target) && boundaries == old(boundaries) + [Request(ProcessRoleStart, Some(target))]
      ensures View() == Pushed(old(View()), Request(ProcessRoleStart, Some(target)))
    {
      if failure { return false; }
      active := Some(target);
      boundaries := boundaries + [Request(ProcessRoleStart, Some(target))];
      ok := true;
    }

    method ClearProcess() returns (ok: bool)
      modifies this
      ensures ok <==> !old(failure)
      ensures !old(failure) ==> active == None && boundaries == old(boundaries)
      ensures View() == Cleared(old(View()))
    {
      if failure { return false; }
      active := None;
      ok := true;
    }

    method Stop()
      modifies this
      ensures View() == StopSet(old(View()))
    {
      stop := true;
    }

    /** The sampler's first lock section of a turn. */
    method Drain() returns (batch: seq<Request>, target: Option<Target>, isStarted: bool, isStopped: bool)
      modifies this
      ensures Writing(batch, target, isStarted, isStopped) == Turn(old(View())) && View() == Drained(old(View()))
    {
      batch, target, isStarted, isStopped := boundaries, active, started, stop;
      boundaries := [];
    }

    /** Its last one. */
    method ShouldStop() returns (yes: bool)
      ensures yes <==> MayStop(View())
    {
      yes := stop && boundaries == [];
    }

    method RecordFailure()
      modifies this
      ensures View() == FailureSet(old(View()))
    {
      failure, stop := true, true;
    }
  }

  // ------------------------------------------------------------- interleavings --

  datatype Sample = Boundary(request: Request) | Periodic(process: Option<Target>)

  /** Where the sampler task stands. */
  datatype SamplerAt =
    | Top
    | Writing(batch: seq<Request>, active: Option<Target>, started: bool, stop: bool)
    | Deciding
    | Erring
    | Done(count: nat)
    | Failed

  /** A turn begins with the queue it took and the flags it saw. */
  function Turn(s: Shared): SamplerAt { Writing(s.boundaries, s.active, s.started, s.stop) }

  /** Where `execute_sampled_recorded_iteration_with_probe` stands. */
  datatype ObserverAt =
    | Iterating(held: Option<Option<Target>>)
    | Ended(ok: bool)
    | Terminal(ok: bool, enqueued: bool)
    | Stopped(ok: bool, enqueued: bool)
    | Finalized(success: bool)

  /** `samples` are the lines of the samples file, `enqueued` every request ever pushed, oldest first. */
  datatype State = State(shared: Shared, sampler: SamplerAt, written: nat, samples: seq<Sample>,
                         observer: ObserverAt, enqueued: seq<Request>)

  const START := State(INITIAL, Top, 0, [], Iterating(None), [])

  datatype Action =
    | Enqueue(kind: Kind)
    | SetProcess(target: Target)
    | ClearProcess
    | ReadActive
    | PushHeld(kind: Kind)
    | IterationEnds(ok: bool)
    | EnqueueTerminal
    | Stop
    | Join
    | Drain
    | WriteBoundary(ok: bool)
    | MaybePeriodic(due: bool, ok: bool)
    | Decide
    | ReportFailure

  /** A push, or the error that ends the iteration. */
  function Push(st: State, r: Request): State {
    if st.shared.failure then st.(observer := Ended(false))
    else st.(shared := Pushed(st.shared, r), observer := Iterating(None), enqueued := st.enqueued + [r])
  }

  /** An action whose turn it is not changes nothing. */
  function Step(st: State, a: Action): State {
    match a
    case Enqueue(kind) =>
      if st.observer.Iterating? && (kind.SamplerStart? || kind.PostCrashState? || kind.PostCleanup?)
      then Push(st, Request(kind, None)) else st
    case SetProcess(target) =>
      if st.observer.Iterating? then Push(st, Request(ProcessRoleStart, Some(target))) else st
    case ClearProcess =>
      if st.observer.Iterating? then
        if st.shared.failure then st.(observer := Ended(false)) else st.(shared := Cleared(st.shared))
      else st
    case ReadActive =>
      if st.observer.Iterating? then
        if st.shared.failure then st.(observer := Ended(false)) else st.(observer := Iterating(Some(st.shared.active)))
      else st
    case PushHeld(kind) =>
      if st.observer.Iterating? && st.observer.held.Some? && kind.CrashMarkerObserved?
      then Push(st, Request(kind, st.observer.held.value)) else st
    case IterationEnds(ok) =>
      if st.observer.Iterating? then st.(observer := Ended(ok)) else st
    case EnqueueTerminal =>
      if st.observer.Ended? then
        var r := Request(if st.observer.ok then TerminalSuccess else TerminalFailure, None);
        if st.shared.failure then st.(observer := Terminal(st.observer.ok, false))
        else st.(shared := Pushed(st.shared, r), observer := Terminal(st.observer.ok, true), enqueued := st.enqueued + [r])
      else st
    case Stop =>
      if st.observer.Terminal? then
        st.(shared := StopSet(st.shared), observer := Stopped(st.observer.ok, st.observer.enqueued))
      else st
    case Join =>
      if st.observer.Stopped? && (st.sampler.Done? || st.sampler.Failed?)
      then st.(observer := Finalized(st.observer.enqueued && st.sampler.Done? && st.observer.ok)) else st
    case Drain =>
      if st.sampler.Top? then
        st.(shared := Drained(st.shared), sampler := Turn(st.shared))
      else st
    case WriteBoundary(ok) =>
      if st.sampler.Writing? && st.sampler.batch != [] then
        if ok then
          st.(samples := st.samples + [Boundary(st.sampler.batch[0])], written := st.written + 1,
              sampler := st.sampler.(batch := st.sampler.batch[1..]))
        else st.(sampler := Erring)
      else st
    case MaybePeriodic(due, ok) =>
      if st.sampler.Writing? && st.sampler.batch == [] then
        if st.sampler.started && !st.sampler.stop && due then
          if ok then st.(samples := st.samples + [Periodic(st.sampler.active)], written := st.written + 1, sampler := Deciding)
          else st.(sampler := Erring)
        else st.(sampler := Deciding)
      else st
    case Decide =>
      if st.sampler.Deciding? then
        if MayStop(st.shared) then st.(sampler := Done(st.written)) else st.(sampler := Top)
      else st
    case ReportFailure =>
      if st.sampler.Erring? then st.(shared := FailureSet(st.shared), sampler := Failed) else st
  }

  function Run(actions: seq<Action>): State {
    if actions == [] then START else Step(Run(actions[..|actions| - 1]), actions[|actions| - 1])
  }

  /** The boundary requests among the samples, in file order. */
  function Boundaries(samples: seq<Sample>): seq<Request> {
    if samples == [] then []
    else
      var last := samples[|samples| - 1];
      Boundaries(samples[..|samples| - 1]) + if last.Boundary? then [last.request] else []
  }

  ghost predicate Invariant(st: State) {
    && st.written == |st.samples|
    // a failed sampler may have lost requests; one that has not has lost none
    && (!st.sampler.Erring? && !st.sampler.Failed? ==>
          Boundaries(st.samples) + (if st.sampler.Writing? then st.sampler.batch else []) + st.shared.boundaries == st.enqueued)
    && (st.shared.failure <==> st.sampler.Failed?)
    && (st.shared.stop ==> st.sampler.Failed? || st.observer.Stopped? || st.observer.Finalized?)
    && (st.sampler.Done? ==> st.shared.stop && st.shared.boundaries == [] && st.sampler.count == st.written)
    && (st.observer.Terminal? || st.observer.Stopped? ==>
          (st.observer.enqueued ==>
             st.enqueued != [] && st.enqueued[|st.enqueued| - 1].kind == if st.observer.ok then TerminalSuccess else TerminalFailure))
    && (st.observer.Stopped? ==> st.shared.stop)
    && (st.observer.Finalized? ==> st.sampler.Done? || st.sampler.Failed?)
    && (st.observer.Finalized? && st.observer.success ==>
          st.sampler.Done? && st.enqueued != [] && st.enqueued[|st.enqueued| - 1].kind.TerminalSuccess?)
  }

  lemma BoundariesAppend(samples: seq<Sample>, s: Sample)
    ensures Boundaries(samples + [s]) == Boundaries(samples) + if s.Boundary? then [s.request] else []
  {
    assert (samples + [s])[..|samples|] == samples;
  }

  predicate BySampler(a: Action) {
    a.Drain? || a.WriteBoundary? || a.MaybePeriodic? || a.Decide? || a.ReportFailure?
  }

  lemma WriteStep(st: State, ok: bool)
    requires Invariant(st)
    ensures Invariant(Step(st, WriteBoundary(ok)))
  {
    hide Boundaries;
    if st.sampler.Writing? && st.sampler.batch != [] {
      BoundariesAppend(st.samples, Boundary(st.sampler.batch[0]));
      assert st.sampler.batch == [st.sampler.batch[0]] + st.sampler.batch[1..];
    }
  }

  lemma SamplerStep(st: State, a: Action)
    requires Invariant(st) && BySampler(a) && !a.WriteBoundary?
    ensures Invariant(Step(st, a))
  {
    hide Boundaries;
    if a.MaybePeriodic? && st.sampler.Writing? { BoundariesAppend(st.samples, Periodic(st.sampler.active)); }
  }

  lemma ObserverStep(st: State, a: Action)
    requires Invariant(st) && !BySampler(a)
    ensures Invariant(Step(st, a))
  {
    hide Boundaries;
  }

  lemma StepInvariant(st: State, a: Action)
    requires Invariant(st)
    ensures Invariant(Step(st, a))
  {
    hide Invariant, Step;
    if a.WriteBoundary? { WriteStep(st, a.ok); } else if BySampler(a) { SamplerStep(st, a); } else { ObserverStep(st, a); }
  }

  lemma {:induction false} RunInvariant(actions: seq<Action>)
    ensures Invariant(Run(actions))
  {
    hide Invariant, Step;
    if actions == [] {
      Start();
    } else {
      RunInvariant(actions[..|actions| - 1]);
      StepInvariant(Run(actions[..|actions| - 1]), actions[|actions| - 1]);
    }
  }

  lemma Start()
    ensures Invariant(START)
  {
  }

  /** In every interleaving: a sampler that has returned success has written exactly the enqueued requests, first in
      first out, plus periodic samples; its count is the number of lines; and no later step enqueues any more. */
  lemma SuccessWroteEverything(actions: seq<Action>)
    requires Run(actions).sampler.Done?
    ensures var st := Run(actions);
      && Boundaries(st.samples) == st.enqueued && st.sampler.count == |st.samples|
      && (st.observer.Stopped? || st.observer.Finalized?)
  {
    RunInvariant(actions);
  }

  /** Nothing changes the samples or the enqueued requests after that. */
  lemma SettledAfterSuccess(actions: seq<Action>, a: Action)
    requires Run(actions).sampler.Done?
    ensures var st, next := Run(actions), Step(Run(actions), a);
      && next.samples == st.samples && next.enqueued == st.enqueued && next.sampler == st.sampler
      && (st.observer.Finalized? ==> next.observer == st.observer)
  {
    RunInvariant(actions);
  }

  /** Success evidence is finalized only for an iteration that succeeded, under a sampler that returned success,
      with its terminal-success boundary among the written samples. */
  lemma SuccessFinalizedAfterSamples(actions: seq<Action>)
    requires Run(actions).observer == Finalized(true)
    ensures var st := Run(actions);
      && st.sampler == Done(|st.samples|) && Boundaries(st.samples) == st.enqueued
      && st.enqueued != [] && st.enqueued[|st.enqueued| - 1].kind.TerminalSuccess?
  {
    RunInvariant(actions);
  }

  // ------------------------------------------------------ which process is observed --

  /** What a schedule has shown so far: the child set last and not cleared since; that child as of the sampler's last
      turn and as of the observer's last reading; and what the periodic samples and the requests that name a process
      have to name so far. */
  datatype Sight = Sight(child: Option<Target>, atTurn: Option<Target>, atReading: Option<Target>,
                         periodic: seq<Option<Target>>, named: seq<Option<Target>>)

  function Watched(sight: Sight, st: State, a: Action): Sight {
    var steady := st.observer.Iterating? && !st.shared.failure;
    match a
    case SetProcess(target) => if steady then sight.(child := Some(target), named := sight.named + [Some(target)]) else sight
    case ClearProcess => if steady then sight.(child := None) else sight
    case ReadActive => if steady then sight.(atReading := sight.child) else sight
    case PushHeld(kind) =>
      if steady && st.observer.held.Some? && kind.CrashMarkerObserved? then sight.(named := sight.named + [sight.atReading]) else sight
    case Drain => if st.sampler.Top? then sight.(atTurn := sight.child) else sight
    case MaybePeriodic(due, ok) =>
      if st.sampler.Writing? && st.sampler.batch == [] && st.sampler.started && !st.sampler.stop && due && ok
      then sight.(periodic := sight.periodic + [sight.atTurn]) else sight
    case _ => sight
  }

  function Watching(actions: seq<Action>): Sight {
    if actions == [] then Sight(None, None, None, [], [])
    else Watched(Watching(actions[..|actions| - 1]), Run(actions[..|actions| - 1]), actions[|actions| - 1])
  }

  /** The processes the periodic samples name, in file order. */
  function Periodics(samples: seq<Sample>): seq<Option<Target>> {
    if samples == [] then []
    else
      var last := samples[|samples| - 1];
      Periodics(samples[..|samples| - 1]) + if last.Periodic? then [last.process] else []
  }

  /** A child's start and the crash marker are observed with a process. */
  predicate NamesProcess(kind: Kind) { kind.ProcessRoleStart? || kind.CrashMarkerObserved? }

  /** The processes those requests name, in order. */
  function Named(requests: seq<Request>): seq<Option<Target>> {
    if requests == [] then []
    else
      var last := requests[|requests| - 1];
      Named(requests[..|requests| - 1]) + if NamesProcess(last.kind) then [last.process] else []
  }

  ghost predicate Observes(st: State, sight: Sight) {
    && st.shared.active == sight.child
    && (st.observer.Iterating? && st.observer.held.Some? ==> st.observer.held.value == sight.atReading)
    && (st.sampler.Writing? ==> st.sampler.active == sight.atTurn)
    && Periodics(st.samples) == sight.periodic && Named(st.enqueued) == sight.named
  }

  lemma PeriodicsAppend(samples: seq<Sample>, s: Sample)
    ensures Periodics(samples + [s]) == Periodics(samples) + if s.Periodic? then [s.process] else []
  {
    assert (samples + [s])[..|samples|] == samples;
  }

  lemma NamedAppend(requests: seq<Request>, r: Request)
    ensures Named(requests + [r]) == Named(requests) + if NamesProcess(r.kind) then [r.process] else []
  {
    assert (requests + [r])[..|requests|] == requests;
  }

  lemma ObservesStep(st: State, sight: Sight, a: Action)
    requires Observes(st, sight)
    ensures Observes(Step(st, a), Watched(sight, st, a))
  {
    hide Periodics, Named;
    match a
    case WriteBoundary(ok) =>
      if st.sampler.Writing? && st.sampler.batch != [] { PeriodicsAppend(st.samples, Boundary(st.sampler.batch[0])); }
    case MaybePeriodic(due, ok) =>
      if st.sampler.Writing? { PeriodicsAppend(st.samples, Periodic(st.sampler.active)); }
    case Enqueue(kind) => NamedAppend(st.enqueued, Request(kind, None));
    case SetProcess(target) => NamedAppend(st.enqueued, Request(ProcessRoleStart, Some(target)));
    case PushHeld(kind) =>
      if st.observer.Iterating? && st.observer.held.Some? { NamedAppend(st.enqueued, Request(kind, st.observer.held.value)); }
    case EnqueueTerminal =>
      if st.observer.Ended? {
        NamedAppend(st.enqueued, Request(if st.observer.ok then TerminalSuccess else TerminalFailure, None));
      }
    case _ =>
  }

  /** In every interleaving each periodic sample names the child set last and not cleared since, as of the turn that
      took it; each role-start request names the child it sets, and each crash-marker request the child as of the
      reading before it. */
  lemma {:induction false} SamplesNameTheChild(actions: seq<Action>)
    ensures Observes(Run(actions), Watching(actions))
    ensures Periodics(Run(actions).samples) == Watching(actions).periodic
    ensures Named(Run(actions).enqueued) == Watching(actions).named
  {
    hide Step, Watched, Periodics, Named;
    if actions == [] {
      assert Observes(START, Sight(None, None, None, [], [])) by { NothingObserved(); }
    } else {
      SamplesNameTheChild(actions[..|actions| - 1]);
      ObservesStep(Run(actions[..|actions| - 1]), Watching(actions[..|actions| - 1]), actions[|actions| - 1]);
    }
  }

  lemma NothingObserved()
    ensures Observes(START, Sight(None, None, None, [], []))
  {
  }

  // --------------------------------------------- when the terminal sample is last --

  /** What a schedule has done so far: whether the sampler's turn began between pushing the terminal boundary and
      stopping, and whether some such turn found its period due. */
  datatype Past = Past(late: bool, dueLate: bool)

  /** A turn that starts there is late; a late turn's period counts when the branch that samples it is taken. */
  function Noted(past: Past, st: State, a: Action): Past {
    match a
    case Drain => if st.sampler.Top? then past.(late := st.observer.Terminal?) else past
    case MaybePeriodic(due, _) =>
      if st.sampler.Writing? && st.sampler.batch == [] && st.sampler.started && due && past.late
      then past.(dueLate := true) else past
    case _ => past
  }

  function History(actions: seq<Action>): Past {
    if actions == [] then Past(false, false)
    else Noted(History(actions[..|actions| - 1]), Run(actions[..|actions| - 1]), actions[|actions| - 1])
  }

  /** The terminal boundary has been pushed. */
  predicate Pushing(o: ObserverAt) {
    (o.Terminal? && o.enqueued) || (o.Stopped? && o.enqueued) || (o.Finalized? && o.success)
  }

  /** The terminal boundary is still queued, or in the current batch, or written; and once written it is the last
      sample exactly as long as no late turn's period was due. */
  ghost predicate Tracks(st: State, past: Past) {
    && (st.observer.Iterating? || st.observer.Ended? ==> !past.late && !past.dueLate)
    && (Pushing(st.observer) && !st.sampler.Erring? && !st.sampler.Failed? ==>
          && st.enqueued != []
          && var terminal := st.enqueued[|st.enqueued| - 1];
             if st.shared.boundaries != [] then !past.late && !past.dueLate
             else
               && (st.sampler.Writing? ==> (past.late <==> !st.sampler.stop))
               && if st.sampler.Writing? && st.sampler.batch != [] then !past.dueLate
                  else st.samples != []
                       && (past.dueLate <==> st.samples[|st.samples| - 1] != Boundary(terminal)))
  }

  lemma TracksStep(st: State, past: Past, a: Action)
    requires Invariant(st) && Tracks(st, past)
    ensures Tracks(Step(st, a), Noted(past, st, a))
  {
    hide Boundaries;
    if a.WriteBoundary? && st.sampler.Writing? && st.sampler.batch != [] {
      BatchEnds(st);
    }
  }

  /** The last request of the batch is the last one enqueued when the queue is empty. */
  lemma BatchEnds(st: State)
    requires Invariant(st) && st.sampler.Writing? && st.sampler.batch != []
    ensures st.shared.boundaries == [] ==>
      st.enqueued != [] && st.sampler.batch[|st.sampler.batch| - 1] == st.enqueued[|st.enqueued| - 1]
  {
    hide Boundaries;
  }

  lemma {:induction false} RunTracks(actions: seq<Action>)
    ensures Tracks(Run(actions), History(actions))
  {
    hide Invariant, Step, Tracks, Noted;
    if actions == [] {
      assert Tracks(START, Past(false, false)) by { TracksStart(); }
    } else {
      RunInvariant(actions[..|actions| - 1]);
      RunTracks(actions[..|actions| - 1]);
      TracksStep(Run(actions[..|actions| - 1]), History(actions[..|actions| - 1]), actions[|actions| - 1]);
    }
  }

  lemma TracksStart()
    ensures Tracks(START, Past(false, false))
  {
  }

  predicate IsTerminalSuccess(s: Sample) { s.Boundary? && s.request.kind.TerminalSuccess? }

  /** Over every run that finalizes success: the terminal-success boundary is the last line of the samples file if
      and only if no turn the sampler began between the two lock sections found its period due. */
  lemma TerminalIsLastExactly(actions: seq<Action>)
    requires Run(actions).observer == Finalized(true)
    ensures var samples := Run(actions).samples;
      samples != [] && (IsTerminalSuccess(samples[|samples| - 1]) <==> !History(actions).dueLate)
  {
    RunInvariant(actions);
    RunTracks(actions);
    hide Run, History;
    var st := Run(actions);
    var last := st.samples[|st.samples| - 1];
    if last.Boundary? {
      assert Boundaries(st.samples)[|Boundaries(st.samples)| - 1] == last.request;
    }
  }

  /** In particular it is the last one whenever the sampler takes no lock between them. */
  lemma {:induction false} NoTurnBetween(actions: seq<Action>)
    requires forall i | 0 <= i < |actions| :: actions[i].Drain? ==> !Run(actions[..i]).observer.Terminal?
    ensures !History(actions).late && !History(actions).dueLate
  {
    hide Run, Step;
    if actions != [] {
      var before := actions[..|actions| - 1];
      forall i | 0 <= i < |before| ensures before[i].Drain? ==> !Run(before[..i]).observer.Terminal? {
        assert before[..i] == actions[..i];
      }
      NoTurnBetween(before);
    }
  }

  // ------------------------------------------------------------------ progress --

  function After(st: State, actions: seq<Action>): State
    decreases |actions|
  {
    if actions == [] then st else After(Step(st, actions[0]), actions[1..])
  }

  function Rank(st: State): nat {
    var more := st.shared.boundaries != [];
    match st.sampler
    case Top => if more then 1 else 3
    case Writing(_, _, _, _) => if more then 3 else 2
    case Deciding => if more then 2 else 1
    case _ => 0
  }

  /** Once the observer has stopped it, a sampler whose writes succeed returns success, whatever was still queued. */
  lemma {:induction false} StoppedSamplerFinishes(st: State) returns (actions: seq<Action>)
    requires Invariant(st) && st.observer.Stopped? && !st.sampler.Erring? && !st.sampler.Failed?
    ensures var end := After(st, actions);
      Invariant(end) && end.sampler == Done(|end.samples|) && Boundaries(end.samples) == end.enqueued == st.enqueued
    decreases |st.shared.boundaries|, Rank(st), if st.sampler.Writing? then |st.sampler.batch| else 0
  {
    hide Boundaries;
    if st.sampler.Done? {
      actions := [];
    } else {
      var a := match st.sampler
        case Top => Drain
        case Writing(batch, _, _, _) => if batch != [] then WriteBoundary(true) else MaybePeriodic(false, true)
        case _ => Decide;
      StepInvariant(st, a);
      var rest := StoppedSamplerFinishes(Step(st, a));
      actions := [a] + rest;
      assert actions[1..] == rest;
    }
  }

  lemma RunSnoc(actions: seq<Action>, a: Action)
    ensures Run(actions + [a]) == Step(Run(actions), a)
  {
    assert (actions + [a])[..|actions|] == actions;
  }

  /** Pushing the terminal boundary and stopping are two lock sections: a periodic sample can still follow the
      terminal boundary, in a run that then finalizes success. */
  lemma PeriodicAfterTerminal() returns (actions: seq<Action>)
    ensures var st := Run(actions);
      && st.observer == Finalized(true) && |st.samples| == 3
      && st.samples[1] == Boundary(Request(TerminalSuccess, None)) && st.samples[2].Periodic?
  {
    hide Run, Step;
    var start, terminal := Request(SamplerStart, None), Request(TerminalSuccess, None);
    var s1 := START.(shared := INITIAL.(started := true, boundaries := [start]), enqueued := [start]);
    assert Step(START, Enqueue(SamplerStart)) == s1 by { FirstSteps(); }
    var s2 := s1.(shared := s1.shared.(boundaries := [start, terminal]), enqueued := [start, terminal], observer := Terminal(true, true));
    assert Step(Step(s1, IterationEnds(true)), EnqueueTerminal) == s2 by { FirstSteps(); }
    var s3 := s2.(shared := s2.shared.(boundaries := []), written := 3, sampler := Deciding,
                  samples := [Boundary(start), Boundary(terminal), Periodic(None)]);
    assert Step(Step(Step(Step(s2, Drain), WriteBoundary(true)), WriteBoundary(true)), MaybePeriodic(true, true)) == s3 by { MiddleSteps(s2); }
    var s4 := s3.(shared := s3.shared.(stop := true), sampler := Done(3), observer := Finalized(true));
    assert Step(Step(Step(s3, Stop), Decide), Join) == s4 by { LastSteps(s3); }
    var a := [Enqueue(SamplerStart), IterationEnds(true), EnqueueTerminal];
    var b := a + [Drain] + [WriteBoundary(true)] + [WriteBoundary(true)] + [MaybePeriodic(true, true)];
    actions := b + [Stop] + [Decide] + [Join];
    assert Run([]) == START by { RunStart(); }
    RunSnoc([], Enqueue(SamplerStart));
    RunSnoc([] + [Enqueue(SamplerStart)], IterationEnds(true));
    RunSnoc([] + [Enqueue(SamplerStart)] + [IterationEnds(true)], EnqueueTerminal);
    assert a == [] + [Enqueue(SamplerStart)] + [IterationEnds(true)] + [EnqueueTerminal];
    RunSnoc(a, Drain);
    RunSnoc(a + [Drain], WriteBoundary(true));
    RunSnoc(a + [Drain] + [WriteBoundary(true)], WriteBoundary(true));
    RunSnoc(a + [Drain] + [WriteBoundary(true)] + [WriteBoundary(true)], MaybePeriodic(true, true));
    RunSnoc(b, Stop);
    RunSnoc(b + [Stop], Decide);
    RunSnoc(b + [Stop] + [Decide], Join);
  }

  lemma RunStart()
    ensures Run([]) == START
  {
  }

  lemma FirstSteps()
    ensures var start, terminal := Request(SamplerStart, None), Request(TerminalSuccess, None);
      var s1 := START.(shared := INITIAL.(started := true, boundaries := [start]), enqueued := [start]);
      && Step(START, Enqueue(SamplerStart)) == s1
      && Step(Step(s1, IterationEnds(true)), EnqueueTerminal) ==
           s1.(shared := s1.shared.(boundaries := [start, terminal]), enqueued := [start, terminal], observer := Terminal(true, true))
  {
  }

  lemma MiddleSteps(s: State)
    requires s.sampler.Top? && |s.shared.boundaries| == 2 && s.shared.started && !s.shared.stop && s.samples == [] && s.written == 0
    ensures Step(Step(Step(Step(s, Drain), WriteBoundary(true)), WriteBoundary(true)), MaybePeriodic(true, true))
      == s.(shared := s.shared.(boundaries := []), written := 3, sampler := Deciding,
            samples := [Boundary(s.shared.boundaries[0]), Boundary(s.shared.boundaries[1]), Periodic(s.shared.active)])
  {
    var d := Step(s, Drain);
    var e := Step(d, WriteBoundary(true));
    assert e.sampler.batch == [s.shared.boundaries[1]] && e.samples == [Boundary(s.shared.boundaries[0])];
    var f := Step(e, WriteBoundary(true));
    assert f.sampler.batch == [] && f.written == 2;
  }

  lemma LastSteps(s: State)
    requires s.sampler.Deciding? && s.shared.boundaries == [] && s.observer == Terminal(true, true)
    ensures Step(Step(Step(s, Stop), Decide), Join) ==
      s.(shared := s.shared.(stop := true), sampler := Done(s.written), observer := Finalized(true))
  {
  }
}
