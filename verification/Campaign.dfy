/** The guarded batch and the acceptance loop above the controller
    (endurance/guarded_batch.rs, endurance/campaign.rs). */
module Campaign {
  import opened Decimal
  import opened Resume
  import opened EvidenceScan
  import opened EvidenceStore
  import opened Controller

  // ----------------------------------------------------------- guarded batch --

  /** How the guard process ends. */
  datatype GuardRun = SpawnFails | WaitFails | Exits(code: int) | Signalled

  datatype GuardDecision = Allow | Block(kind: GuardBlockKind)
  datatype GuardBlockKind = NonzeroExit | Signal | SpawnFailure | WaitFailure

  datatype GuardAttempt = GuardAttempt(sequence: nat, decision: GuardDecision)

  /** `run_guard`: everything but a clean exit blocks. */
  function RunGuard(sequence: nat, run: GuardRun): GuardAttempt {
    GuardAttempt(sequence,
      match run
      case SpawnFails => Block(SpawnFailure)
      case WaitFails => Block(WaitFailure)
      case Exits(code) => if code == 0 then Allow else Block(NonzeroExit)
      case Signalled => Block(Signal))
  }

  datatype StopReason = RequestedCountCompleted | ResumeBlocked | GuardBlocked

  datatype BatchResult = BatchResult(
    campaign: string, startingFrontier: nat, completed: seq<nat>, attempts: seq<GuardAttempt>,
    stopReason: StopReason, terminal: ResumeStatus)

  /** A batch reports a result, fails with an error, or dies with the controller. */
  datatype BatchEnd = Reported(result: BatchResult) | Failed | Killed

  /** The completed sequences are the ones right after the starting frontier, in order. */
  ghost predicate Consecutive(from: nat, completed: seq<nat>) {
    forall i | 0 <= i < |completed| :: completed[i] == from + 1 + i
  }

  /** What every reported batch is entitled to say. */
  ghost predicate Honest(r: BatchResult, requested: nat, d: Durable) {
    && r.campaign == d.campaign
    && Consecutive(r.startingFrontier, r.completed)
    && |r.completed| <= requested && (forall s | s in r.completed :: s <= U64_MAX)
    && StatusOf(BagOf(d), r.terminal)
    && (r.terminal.frontier == r.startingFrontier + |r.completed| || r.terminal == Inconsistent(0, None, ScanRejected))
    && (r.stopReason.RequestedCountCompleted? <==> |r.completed| == requested)
    && (r.stopReason.ResumeBlocked? ==> r.terminal.state != Ready)
    && (r.stopReason.GuardBlocked? ==> r.terminal == ReadyAt(r.startingFrontier + |r.completed|))
    && |r.attempts| == |r.completed| + (if r.stopReason.GuardBlocked? then 1 else 0)
    && (forall i | 0 <= i < |r.attempts| ::
          r.attempts[i].sequence == r.startingFrontier + 1 + i && (r.attempts[i].decision.Allow? <==> i < |r.completed|))
  }

  /** What a guard's end may lead to: only a clean exit lets the iteration run, and each block names its cause. */
  predicate Justified(run: GuardRun, decision: GuardDecision) {
    && (decision == Allow <==> run == Exits(0))
    && (decision == Block(NonzeroExit) <==> run.Exits? && run.code != 0)
    && (decision == Block(Signal) <==> run == Signalled)
    && (decision == Block(SpawnFailure) <==> run == SpawnFails)
    && (decision == Block(WaitFailure) <==> run == WaitFails)
  }

  /** `execute_guarded_bounded_batch`, on one guard run and one outcome script for each requested iteration. */
  method ExecuteGuardedBatch(store: Store, requested: U64, guards: seq<GuardRun>, scripts: seq<seq<Outcome>>)
    returns (end: BatchEnd)
    requires Ours(store.d) && |guards| >= requested && |scripts| >= requested
    modifies store
    ensures Ours(store.d) && store.d.campaign == old(store.d).campaign
    ensures requested == 0 ==> end == Failed && store.d == old(store.d)
    ensures end.Reported? ==> Honest(end.result, requested, store.d)
    ensures end.Reported? ==> Started(BagOf(old(store.d)), end.result.startingFrontier)
    ensures end.Reported? && end.result.completed == [] ==> store.d == old(store.d)
    ensures end.Reported? ==> |end.result.attempts| <= requested
    ensures end.Reported? ==> forall k | 0 <= k < |end.result.attempts| :: Justified(guards[k], end.result.attempts[k].decision)
  {
    hide BagOf, Invoke, StatusOf, Ours, Selects, Within;
    if requested == 0 { return Failed; }
    var completed, attempts := [], [];
    var campaign := store.d.campaign;
    var starting: Option<nat> := None;
    for i := 0 to requested
      invariant Ours(store.d) && store.d.campaign == campaign
      invariant i == 0 <==> starting.None?
      invariant i == 0 ==> store.d == old(store.d)
      invariant i > 0 ==> Continues(BagOf(store.d), starting.value + i)
      invariant i > 0 ==> Started(BagOf(old(store.d)), starting.value)
      invariant |completed| == |attempts| == i && (i > 0 ==> Consecutive(starting.value, completed))
      invariant forall s | s in completed :: s <= U64_MAX
      invariant forall k | 0 <= k < i :: attempts[k] == GuardAttempt(starting.value + 1 + k, Allow) && guards[k] == Exits(0)
    {
      var pre := ReconcileResumeStatus(store.d);
      if starting.None? { starting := Some(pre.frontier); }
      var start := starting.value;
      if pre.state != Ready {
        return Reported(BatchResult(campaign, start, completed, attempts, ResumeBlocked, pre));
      }
      ReadyHasNext(store.d, pre);
      var selected := pre.next.value;
      var guard := RunGuard(selected, guards[i]);
      attempts := attempts + [guard];
      if !guard.decision.Allow? {
        return Reported(BatchResult(campaign, start, completed, attempts, GuardBlocked, pre));
      }
      ghost var before := store.d;
      var step := store.ExecuteIteration(selected, scripts[i]);
      InvokeEffect(before, selected, scripts[i]);
      match step.end {
        case Died => return Killed;
        case Erred => return Failed;
        case Finished =>
      }
      completed := completed + [selected];
      forall st | StatusOf(BagOf(store.d), st) ensures st.frontier == selected || st == Inconsistent(0, None, ScanRejected) {
        AfterSuccess(before, selected, scripts[i], st);
      }
    }
    var terminal := ReconcileResumeStatus(store.d);
    return Reported(BatchResult(campaign, starting.value, completed, attempts, RequestedCountCompleted, terminal));
  }

  ghost predicate Started(bag: Bag, frontier: nat) { exists st :: StatusOf(bag, st) && st.frontier == frontier }

  ghost predicate Continues(bag: Bag, frontier: nat) {
    forall st | StatusOf(bag, st) :: st.frontier == frontier || st == Inconsistent(0, None, ScanRejected)
  }

  /** A successful step moves the frontier to the sequence it ran, or the evidence can no longer be read. */
  lemma AfterSuccess(d: Durable, s: U64, script: seq<Outcome>, st: ResumeStatus)
    requires Ours(d) && Selects(BagOf(d), s) && Invoke(d, s, script).end.Finished?
    requires StatusOf(BagOf(Invoke(d, s, script).d), st)
    ensures st.frontier == s || st == Inconsistent(0, None, ScanRejected)
  {
    hide BagOf, Invoke, StatusOf, Selects, Rejected, Tally;
    InvocationShape(d, s, script);
    NextStatus(d, s, script, st);
    CompleteIsSomething(Tally(BagOf(Invoke(d, s, script).d), s));
  }

  lemma CompleteIsSomething(e: SequenceEvidence)
    ensures Complete(e) ==> e != NoEvidence
  {
  }

  // ---------------------------------------------------------- acceptance loop --

  datatype Policy = Policy(minimumElapsed: nat, minimumIterations: nat)

  datatype CampaignStop = FloorsSatisfied | CampaignResumeBlocked | CampaignGuardBlocked

  datatype CampaignResult = CampaignResult(
    observedAt: nat, elapsed: nat, initialFrontier: nat, finalFrontier: nat, iterations: nat,
    stopReason: CampaignStop, terminal: ResumeStatus)

  datatype LoopError =
    | PolicyInvalid | ClockFailed | ClockBackwards | StepFailed | CampaignMismatch | StartMismatch | CountMismatch
    | FrontierOverflow | SequenceMismatch | TerminalMismatch | FrontierBackwards

  datatype LoopEnd = Stopped(result: CampaignResult) | Bailed(error: LoopError)

  predicate ValidPolicy(p: Policy) { p.minimumIterations != 0 && p.minimumElapsed <= U64_MAX }

  /** `finish_result`. */
  function FinishResult(startedAt: nat, observedAt: nat, initial: nat, reason: CampaignStop, terminal: ResumeStatus): LoopEnd {
    if observedAt < startedAt then Bailed(ClockBackwards)
    else if terminal.frontier < initial then Bailed(FrontierBackwards)
    else Stopped(CampaignResult(observedAt, observedAt - startedAt, initial, terminal.frontier, terminal.frontier - initial, reason, terminal))
  }

  /** What the loop does before a step: carry on, or end. */
  datatype Turn = Go | Halt(end: LoopEnd)

  /** The clock, the resume state and the two floors, in that order; None is a failing clock. */
  function BeforeStep(startedAt: nat, observed: Option<nat>, initial: nat, policy: Policy, current: ResumeStatus): Turn {
    if observed.None? then Halt(Bailed(ClockFailed))
    else if observed.value < startedAt then Halt(Bailed(ClockBackwards))
    else if current.state != Ready then Halt(FinishResult(startedAt, observed.value, initial, CampaignResumeBlocked, current))
    else if observed.value - startedAt >= policy.minimumElapsed && current.frontier >= policy.minimumIterations then
      Halt(FinishResult(startedAt, observed.value, initial, FloorsSatisfied, current))
    else Go
  }

  /** What it makes of a step: the status to go on with, a failed check, or a block. */
  datatype StepTurn = Next(current: ResumeStatus) | Wrong(error: LoopError) | BlockedBy(reason: CampaignStop)

  function AfterStep(campaign: string, current: ResumeStatus, step: BatchResult): StepTurn {
    if step.campaign != campaign then Wrong(CampaignMismatch)
    else if step.startingFrontier != current.frontier then Wrong(StartMismatch)
    else match step.stopReason
      case RequestedCountCompleted =>
        if |step.completed| != 1 then Wrong(CountMismatch)
        else if current.frontier >= U64_MAX then Wrong(FrontierOverflow)
        else if step.completed[0] != current.frontier + 1 then Wrong(SequenceMismatch)
        else if step.terminal.frontier != current.frontier + 1 then Wrong(TerminalMismatch)
        else Next(step.terminal)
      case ResumeBlocked => BlockedBy(CampaignResumeBlocked)
      case GuardBlocked => BlockedBy(CampaignGuardBlocked)
  }

  function Reading(clock: seq<Option<nat>>, i: nat): Option<nat> { if i < |clock| then clock[i] else None }

  /** A step that completed sequence f + 1 and says so consistently. */
  predicate Advances(step: Option<BatchResult>, campaign: string, f: nat) {
    step.Some? &&
    var r := step.value;
    && r.campaign == campaign && r.startingFrontier == f && r.stopReason.RequestedCountCompleted?
    && r.completed == [f + 1] && f < U64_MAX && r.terminal.frontier == f + 1
  }

  /** `run_acceptance_loop`, against a scripted clock (None: the clock fails) and scripted steps (None: the step
      fails); a script that runs out is a failing clock or step. `steps taken` is returned as `used`. */
  method RunAcceptanceLoop(campaign: string, startedAt: nat, initial: ResumeStatus, policy: Policy,
                           clock: seq<Option<nat>>, steps: seq<Option<BatchResult>>)
    returns (end: LoopEnd, used: nat)
    ensures used <= |steps|
    // every step but possibly the last advanced the frontier by exactly one
    ensures forall i | 0 <= i < used - 1 :: Advances(steps[i], campaign, initial.frontier + i) && steps[i].value.terminal.state == Ready
    ensures end.Stopped? ==>
      var r := end.result;
      && r.initialFrontier == initial.frontier && r.finalFrontier == r.terminal.frontier
      && r.iterations == r.finalFrontier - r.initialFrontier
      && Reading(clock, used) == Some(r.observedAt) && r.elapsed == r.observedAt - startedAt
      && match r.stopReason
         case FloorsSatisfied =>
           && r.elapsed >= policy.minimumElapsed && r.finalFrontier >= policy.minimumIterations
           && r.terminal.state == Ready && r.iterations == used
           && (used > 0 ==> Advances(steps[used - 1], campaign, initial.frontier + used - 1))
         case CampaignResumeBlocked =>
           r.terminal.state != Ready || (used > 0 && steps[used - 1].Some? && steps[used - 1].value.stopReason.ResumeBlocked?)
         case CampaignGuardBlocked =>
           used > 0 && steps[used - 1].Some? && steps[used - 1].value.stopReason.GuardBlocked?
           && r.terminal == steps[used - 1].value.terminal && steps[used - 1].value.startingFrontier == initial.frontier + used - 1
    // with an ascending clock and steps that keep succeeding, the floors are reached
    ensures WillReach(campaign, startedAt, initial, policy, clock, steps) ==> end.Stopped? && end.result.stopReason.FloorsSatisfied?
  {
    if WillReach(campaign, startedAt, initial, policy, clock, steps) { ClockAdvances(startedAt, clock, |clock| - 1); }
    used := 0;
    if !ValidPolicy(policy) { return Bailed(PolicyInvalid), used; }
    var current := initial;
    while true
      invariant used <= |steps| && used <= |clock|
      invariant current.frontier == initial.frontier + used
      invariant forall i | 0 <= i < used :: Advances(steps[i], campaign, initial.frontier + i)
      invariant forall i | 0 <= i < used - 1 :: steps[i].value.terminal.state == Ready
      invariant current == if used == 0 then initial else steps[used - 1].value.terminal
      invariant WillReach(campaign, startedAt, initial, policy, clock, steps) ==> used <= Enough(policy)
      decreases |steps| - used
    {
      match BeforeStep(startedAt, Reading(clock, used), initial.frontier, policy, current) {
        case Halt(end) => return end, used;
        case Go =>
      }
      if used >= |steps| || steps[used].None? { return Bailed(StepFailed), used; }
      var step := steps[used].value;
      used := used + 1;
      match AfterStep(campaign, current, step) {
        case Wrong(error) => return Bailed(error), used;
        case Next(next) => current := next;
        case BlockedBy(reason) =>
          if Reading(clock, used).None? { return Bailed(ClockFailed), used; }
          return FinishResult(startedAt, Reading(clock, used).value, initial.frontier, reason, step.terminal), used;
      }
    }
  }

  lemma {:induction false} ClockAdvances(startedAt: nat, clock: seq<Option<nat>>, n: nat)
    requires n < |clock| && forall i | 0 <= i < |clock| :: clock[i].Some? && clock[i].value >= startedAt
    requires forall i, j | 0 <= i < j < |clock| :: clock[i].value < clock[j].value
    ensures forall i | 0 <= i <= n :: clock[i].value >= startedAt + i
  {
    if n > 0 {
      ClockAdvances(startedAt, clock, n - 1);
      assert clock[n - 1].value < clock[n].value;
    }
  }

  function Enough(policy: Policy): nat {
    if policy.minimumElapsed >= policy.minimumIterations then policy.minimumElapsed else policy.minimumIterations
  }

  /** The clock starts no earlier than the campaign and strictly advances, and every step succeeds. */
  ghost predicate WillReach(campaign: string, startedAt: nat, initial: ResumeStatus, policy: Policy,
                            clock: seq<Option<nat>>, steps: seq<Option<BatchResult>>) {
    && ValidPolicy(policy) && initial.state == Ready
    && |clock| > Enough(policy) && |steps| >= Enough(policy)
    && (forall i | 0 <= i < |clock| :: clock[i].Some? && clock[i].value >= startedAt)
    && (forall i, j | 0 <= i < j < |clock| :: clock[i].value < clock[j].value)
    && (forall i | 0 <= i < Enough(policy) ::
          Advances(steps[i], campaign, initial.frontier + i) && steps[i].value.terminal.state == Ready)
  }

  /** Errors the loop can meet over a real store whose evidence can be read. */
  predicate FromOutside(e: LoopError) { e.PolicyInvalid? || e.ClockFailed? || e.ClockBackwards? || e.StepFailed? }

  /** A ready status is the only one its evidence allows, numbers included. */
  lemma ReadyIsDetermined(bag: Bag, a: ResumeStatus, b: ResumeStatus)
    requires StatusOf(bag, a) && StatusOf(bag, b) && a.state == Ready
    ensures b == a && !Rejected(bag)
  {
    hide Rejected, EvidenceOf, CompleteThrough, NothingAbove;
    DecisionDetermined(EvidenceOf(bag), a, b);
  }

  lemma UnreadableExactly(bag: Bag)
    requires StatusOf(bag, Inconsistent(0, None, ScanRejected))
    ensures Rejected(bag)
  {
    hide EvidenceOf;
  }

  /** A real one-iteration batch, run on a store whose status is the one the loop holds, passes each of the loop's
      checks: only unreadable evidence can make its terminal frontier wrong, and a guard block leaves the frontier
      where it was. */
  lemma RealStepPasses(r: BatchResult, before: Durable, after: Durable, current: ResumeStatus)
    requires Honest(r, 1, after) && before.campaign == after.campaign
    requires StatusOf(BagOf(before), current) && current.state == Ready && Started(BagOf(before), r.startingFrontier)
    ensures StatusOf(BagOf(after), r.terminal)
    ensures match AfterStep(before.campaign, current, r)
      case Next(next) => next == r.terminal && next.frontier == current.frontier + 1 && r.stopReason.RequestedCountCompleted?
      case Wrong(error) => error.TerminalMismatch? && Rejected(BagOf(after))
      case BlockedBy(reason) =>
        && (reason.CampaignGuardBlocked? ==> r.stopReason.GuardBlocked? && r.terminal == ReadyAt(current.frontier))
        && (reason.CampaignResumeBlocked? ==>
              r.stopReason.ResumeBlocked? && r.terminal.state != Ready
              && r.terminal.frontier <= current.frontier
              && (r.terminal.frontier == current.frontier || Rejected(BagOf(after))))
        && !reason.FloorsSatisfied?
  {
    hide StatusOf, BagOf, Rejected;
    var st :| StatusOf(BagOf(before), st) && st.frontier == r.startingFrontier;
    ReadyIsDetermined(BagOf(before), current, st);
    if r.terminal == Inconsistent(0, None, ScanRejected) { UnreadableExactly(BagOf(after)); }
    if r.stopReason.RequestedCountCompleted? {
      assert r.completed[0] in r.completed;
    }
  }

  /** A reported one-iteration batch completed its iteration exactly when its guard exited cleanly, and was blocked by
      its guard exactly when it ran one that did not. */
  lemma StepGuard(r: BatchResult, after: Durable, guard: GuardRun)
    requires Honest(r, 1, after) && forall k | 0 <= k < |r.attempts| :: Justified(guard, r.attempts[k].decision)
    ensures r.stopReason.RequestedCountCompleted? ==> guard == Exits(0)
    ensures r.stopReason.GuardBlocked? ==> guard != Exits(0)
  {
    hide StatusOf, BagOf;
    if r.stopReason.RequestedCountCompleted? || r.stopReason.GuardBlocked? { assert Justified(guard, r.attempts[0].decision); }
  }

  datatype CampaignEnd = Ran(end: LoopEnd) | Dead

  /** `execute_acceptance_campaign_with_policy`: the same loop, each step one guarded batch of one iteration on the
      store. A script that runs out is the controller dying between two steps. */
  method RunCampaign(store: Store, startedAt: nat, policy: Policy, clock: seq<Option<nat>>,
                     guards: seq<GuardRun>, scripts: seq<seq<Outcome>>) returns (end: CampaignEnd, used: nat)
    requires Ours(store.d) && |guards| == |scripts|
    modifies store
    ensures Ours(store.d) && used <= |guards|
    // no check between the loop and its steps can fail while the evidence can be read
    ensures end.Ran? && end.end.Bailed? ==>
      FromOutside(end.end.error) || ((end.end.error.TerminalMismatch? || end.end.error.FrontierBackwards?) && Rejected(BagOf(store.d)))
    // every step that advanced had a guard that exited cleanly, and a guard block means that the last one did not
    ensures forall k | 0 <= k < used - 1 :: guards[k] == Exits(0)
    ensures end.Ran? && end.end.Stopped? ==>
      var r := end.end.result;
      && (used > 0 && r.finalFrontier == r.initialFrontier + used ==> guards[used - 1] == Exits(0))
      && (r.stopReason.CampaignGuardBlocked? ==> used > 0 && guards[used - 1] != Exits(0))
      && Reading(clock, used) == Some(r.observedAt) && r.elapsed == r.observedAt - startedAt
      && StatusOf(BagOf(store.d), r.terminal) && Started(BagOf(old(store.d)), r.initialFrontier)
      && r.finalFrontier == r.terminal.frontier && r.iterations == r.finalFrontier - r.initialFrontier
      && match r.stopReason
         case FloorsSatisfied =>
           && r.elapsed >= policy.minimumElapsed && r.finalFrontier >= policy.minimumIterations
           && r.terminal.state == Ready && r.finalFrontier == r.initialFrontier + used
         case CampaignGuardBlocked => used > 0 && r.terminal == ReadyAt(r.initialFrontier + used - 1)
         case CampaignResumeBlocked => r.terminal.state != Ready
  {
    hide BagOf, StatusOf, Ours, Rejected, Honest, AfterStep, Inconsistent;
    used := 0;
    if !ValidPolicy(policy) { return Ran(Bailed(PolicyInvalid)), used; }
    var campaign := store.d.campaign;
    var initial := ReconcileResumeStatus(store.d);
    assert Started(BagOf(store.d), initial.frontier);
    var current := initial;
    while true
      invariant Ours(store.d) && store.d.campaign == campaign && used <= |guards|
      invariant StatusOf(BagOf(store.d), current) && current.frontier == initial.frontier + used
      invariant Started(BagOf(old(store.d)), initial.frontier)
      invariant forall k | 0 <= k < used :: guards[k] == Exits(0)
      decreases |guards| - used
    {
      match BeforeStep(startedAt, Reading(clock, used), initial.frontier, policy, current) {
        case Halt(end) => return Ran(end), used;
        case Go =>
      }
      if used >= |guards| { return Dead, used; }
      ghost var before := store.d;
      var batch := ExecuteGuardedBatch(store, 1, [guards[used]], [scripts[used]]);
      used := used + 1;
      match batch {
        case Killed => return Dead, used;
        case Failed => return Ran(Bailed(StepFailed)), used;
        case Reported(step) =>
          RealStepPasses(step, before, store.d, current);
          StepGuard(step, store.d, guards[used - 1]);
          match AfterStep(campaign, current, step) {
            case Wrong(error) => return Ran(Bailed(error)), used;
            case Next(next) => current := next;
            case BlockedBy(reason) =>
              if Reading(clock, used).None? { return Ran(Bailed(ClockFailed)), used; }
              return Ran(FinishResult(startedAt, Reading(clock, used).value, initial.frontier, reason, step.terminal)), used;
          }
      }
    }
  }
}
