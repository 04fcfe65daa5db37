/** One controller at a time, invocation after invocation, each of which may die between or inside
    any two durable writes (endurance.rs, endurance/evidence.rs, crash.rs, progress.rs, sampling.rs). */
module Controller {
  import opened Decimal
  import opened Resume
  import opened EvidenceScan
  import opened EvidenceStore
  import Planner

  // -------------------------------------------------------------- programs --

  function RunChild(child: Child): seq<Action> {
    [Spawn(child), Record(ChildStarted(child)), Record(ChildCompleted(child)), Require("child exit status")]
  }

  const PREAMBLE: seq<Action> :=
    [Require("resource sampler connection"), Record(IterationPlanned), Record(IterationStarted)]

  const ENDING: seq<Action> := [Require("cleanup"), Record(CleanupCompleted), Require("resource sampler join")]

  /** `execute_clean_iteration_observed`, between the sampler's connection and its join. */
  function CleanProgram(): seq<Action> {
    PREAMBLE + RunChild(Workload) + RunChild(Verification) + ENDING
  }

  /** `execute_crash_iteration_unix`. */
  function CrashProgram(): seq<Action> {
    PREAMBLE
    + [Spawn(Workload), Record(ChildStarted(Workload)), Require("pause marker"), Record(CrashMarkerObserved),
       Require("kill"), Record(SigkillDelivered), Record(CrashChildReaped), Require("killed by signal 9"),
       Require("crash state"), Record(PostCrashStateObserved)]
    + RunChild(PlainRelaunch) + RunChild(Recovery) + RunChild(Continuation) + RunChild(Verification) + ENDING
  }

  /** `execute_recorded_execution`: the plan decides which. */
  function Program(s: nat): seq<Action> {
    if Planner.FailureOf(s).Clean? then CleanProgram() else CrashProgram()
  }

  /** `finalize_success`. */
  const SUCCESS_PROGRAM: seq<Action> := [PutSingleton, Record(Phase.TerminalSuccess)]

  /** `finalize_failure`. */
  const FAILURE_PROGRAM: seq<Action> := [PutFailure, Record(Phase.TerminalFailure)]

  // ------------------------------------------------------------- execution --

  /** How a program ended: to its last step, at a step that failed, or by the controller dying. */
  datatype End = Finished | Erred | Died

  /** `trace` is what was attempted, in order; `spawned` whether some child may exist. */
  datatype Result = Result(d: Durable, spawned: bool, end: End, rest: seq<Outcome>, trace: seq<Action>)

  /** Runs a program against a script of outcomes; the script running out is death between two steps. */
  function Execute(d: Durable, s: U64, todo: seq<Action>, script: seq<Outcome>): Result
    decreases |todo|
  {
    if todo == [] then Result(d, false, Finished, script, [])
    else if script == [] then Result(d, false, Died, [], [])
    else
      var a, o := todo[0], script[0];
      var after := Perform(d, s, a, o);
      var seen := Seen(d, s, a, o);
      if seen.Die? then Result(after, a.Spawn?, Died, script[1..], [a])
      else if seen.Error? then Result(after, false, Erred, script[1..], [a])
      else
        var r := Execute(after, s, todo[1..], script[1..]);
        r.(spawned := a.Spawn? || r.spawned, trace := [a] + r.trace)
  }

  /** `execute_sampled_recorded_iteration_with_probe`: the iteration, then exactly one of the two endings. */
  function Invoke(d: Durable, s: U64, script: seq<Outcome>): Result {
    var body := Execute(d, s, Program(s), script);
    match body.end
    case Died => body
    case Finished =>
      var ending := Execute(body.d, s, SUCCESS_PROGRAM, body.rest);
      ending.(spawned := body.spawned, trace := body.trace + ending.trace)
    case Erred =>
      var ending := Execute(body.d, s, FAILURE_PROGRAM, body.rest);
      ending.(spawned := body.spawned, end := Erred, trace := body.trace + ending.trace)
  }

  // ------------------------------------------- what a program can do to a bag --

  /** Only allowed notes are added, unless the evidence becomes unreadable. */
  ghost predicate Within(before: Bag, after: Bag, allowed: set<Note>) {
    Rejected(after) || (!Rejected(before) && before <= after && forall n | n in after - before :: n in allowed)
  }

  lemma WithinSelf(b: Bag, allowed: set<Note>)
    ensures Within(b, b, allowed)
  {
  }

  lemma WithinGains(before: Bag, after: Bag, note: Option<Note>, allowed: set<Note>)
    requires Gains(before, after, note) && (note.Some? ==> note.value in allowed)
    ensures Within(before, after, allowed) && (Rejected(before) ==> Rejected(after))
  {
  }

  lemma WithinTransitive(a: Bag, b: Bag, c: Bag, allowed: set<Note>)
    requires Within(a, b, allowed) && Within(b, c, allowed) && (Rejected(b) ==> Rejected(c))
    ensures Within(a, c, allowed)
  {
    if !Rejected(c) {
      forall n | n in c - a ensures n in allowed {
        if n !in b - a { assert n in c - b; }
      }
    }
  }

  ghost predicate Permits(s: U64, todo: seq<Action>, allowed: set<Note>) {
    forall a | a in todo && NoteFor(s, a).Some? :: NoteFor(s, a).value in allowed
  }

  lemma {:induction false} ExecuteWithin(d: Durable, s: U64, todo: seq<Action>, script: seq<Outcome>, allowed: set<Note>)
    requires s >= 1 && Ours(d) && Permits(s, todo, allowed)
    ensures var r := Execute(d, s, todo, script);
      Ours(r.d) && r.d.campaign == d.campaign && Within(BagOf(d), BagOf(r.d), allowed) && (Rejected(BagOf(d)) ==> Rejected(BagOf(r.d)))
    decreases |todo|
  {
    hide Rejected, BagOf, Within, Perform, Seen;
    WithinSelf(BagOf(d), allowed);
    if todo != [] && script != [] {
      PerformEffect(d, s, todo[0], script[0]);
      var after := Perform(d, s, todo[0], script[0]);
      WithinGains(BagOf(d), BagOf(after), NoteFor(s, todo[0]), allowed);
      if Seen(d, s, todo[0], script[0]).Ok? {
        ExecuteWithin(after, s, todo[1..], script[1..], allowed);
        WithinTransitive(BagOf(d), BagOf(after), BagOf(Execute(d, s, todo, script).d), allowed);
      }
    }
  }

  /** Every spawn comes after a recorded nonterminal event. */
  predicate PlannedFirst(todo: seq<Action>) {
    todo == [] || (todo[0].Record? && PhaseKind(todo[0].phase).Lifecycle?) || (!todo[0].Spawn? && PlannedFirst(todo[1..]))
  }

  /** Iterations record only nonterminal phases; the endings write the rest. */
  predicate BodyAction(a: Action) {
    !a.PutSingleton? && !a.PutFailure? && (a.Record? ==> PhaseKind(a.phase).Lifecycle?)
  }

  lemma ProgramShape(s: nat)
    ensures PlannedFirst(Program(s))
    ensures forall a | a in Program(s) :: BodyAction(a)
  {
    var p := Program(s);
    assert p[0] == PREAMBLE[0] && p[1] == PREAMBLE[1];
    assert PlannedFirst(p[1..]);
  }

  ghost predicate Traced(bag: Bag, s: U64) { Rejected(bag) || EventNote(s, Lifecycle) in bag }

  lemma TracedStays(before: Bag, after: Bag, s: U64, allowed: set<Note>)
    requires Traced(before, s) && Within(before, after, allowed)
    ensures Traced(after, s)
  {
  }

  lemma {:induction false} SpawnLeavesTrace(d: Durable, s: U64, todo: seq<Action>, script: seq<Outcome>, allowed: set<Note>)
    requires s >= 1 && Ours(d) && PlannedFirst(todo) && Permits(s, todo, allowed)
    requires Execute(d, s, todo, script).spawned
    ensures Traced(BagOf(Execute(d, s, todo, script).d), s)
    decreases |todo|
  {
    hide Rejected, BagOf, Within, Perform, Seen;
    PerformEffect(d, s, todo[0], script[0]);
    var after := Perform(d, s, todo[0], script[0]);
    ExecuteWithin(after, s, todo[1..], script[1..], allowed);
    if todo[0].Record? && PhaseKind(todo[0].phase).Lifecycle? {
      TracedStays(BagOf(after), BagOf(Execute(d, s, todo, script).d), s, allowed);
    } else {
      SpawnLeavesTrace(after, s, todo[1..], script[1..], allowed);
    }
  }

  /** Everything an invocation for s can ever note. */
  function NotesFor(s: U64): set<Note> {
    {EventNote(s, Lifecycle), EventNote(s, EventKind.Success), EventNote(s, EventKind.Failure), Singleton(s), FailureFile(s)}
  }

  lemma InvokeEffect(d: Durable, s: U64, script: seq<Outcome>)
    requires s >= 1 && Ours(d)
    ensures var r := Invoke(d, s, script);
      && Ours(r.d) && r.d.campaign == d.campaign
      && Within(BagOf(d), BagOf(r.d), NotesFor(s)) && (Rejected(BagOf(d)) ==> Rejected(BagOf(r.d)))
      && (r.spawned ==> Traced(BagOf(r.d), s))
  {
    hide Rejected, BagOf, Within, Execute, Traced;
    ProgramShape(s);
    var allowed := NotesFor(s);
    var body := Execute(d, s, Program(s), script);
    ExecuteWithin(d, s, Program(s), script, allowed);
    if body.spawned { SpawnLeavesTrace(d, s, Program(s), script, allowed); }
    var ending := if body.end.Finished? then SUCCESS_PROGRAM else FAILURE_PROGRAM;
    if !body.end.Died? {
      ExecuteWithin(body.d, s, ending, body.rest, allowed);
      var r := Execute(body.d, s, ending, body.rest);
      WithinTransitive(BagOf(d), BagOf(body.d), BagOf(r.d), allowed);
      if body.spawned { TracedStays(BagOf(body.d), BagOf(r.d), s, allowed); }
    }
  }

  // ---------------------------------------------------------------- the runs --

  /** The evidence selects s: exactly 1..s-1 are present and complete. */
  ghost predicate Selects(bag: Bag, s: nat) {
    !Rejected(bag) && 1 <= s <= U64_MAX && Exactly(EvidenceOf(bag), s - 1)
  }

  lemma BagIsNumbered(d: Durable)
    ensures Numbered(BagOf(d))
  {
    forall n | n in BagOf(d) ensures n.Bad? || n.sequence >= 1 {
      assert n in OfLines(d.log.lines, d.campaign) || n in OfIterations(d.iterations, d.campaign) || n in OfFailures(d.failures, d.campaign);
    }
  }

  /** `execute_selected_with` runs exactly the sequence the evidence selects, and only on a ready status. */
  lemma SelectionExactly(d: Durable, st: ResumeStatus, s: nat)
    requires StatusOf(BagOf(d), st)
    ensures st.state == Ready && st.next == Some(s) <==> Selects(BagOf(d), s)
  {
    hide BagOf, EvidenceOf, Rejected;
    var bag := BagOf(d);
    if !Rejected(bag) {
      BagIsNumbered(d);
      EvidenceIsScanned(bag);
      if s >= 1 { ReadyExactly(EvidenceOf(bag), st, s - 1); }
      ReadyExactly(EvidenceOf(bag), st, st.frontier);
    }
  }

  datatype Invocation = Invocation(sequence: U64, script: seq<Outcome>)

  /** Durable state, and the sequences whose children were spawned, one entry an invocation. */
  datatype State = State(d: Durable, spawned: seq<U64>)

  /** An invocation does something only for the sequence the evidence selects. */
  ghost function Step(st: State, i: Invocation): State {
    if Selects(BagOf(st.d), i.sequence) then
      var r := Invoke(st.d, i.sequence, i.script);
      State(r.d, if r.spawned then st.spawned + [i.sequence] else st.spawned)
    else st
  }

  ghost function Run(campaign: string, invocations: seq<Invocation>): State {
    if invocations == [] then State(EmptyStore(campaign), [])
    else Step(Run(campaign, invocations[..|invocations| - 1]), invocations[|invocations| - 1])
  }

  ghost predicate Ascending(xs: seq<U64>) { forall i, j | 0 <= i < j < |xs| :: xs[i] < xs[j] }

  ghost predicate Invariant(st: State) {
    Ours(st.d) && Ascending(st.spawned) && forall s | s in st.spawned :: s >= 1 && Traced(BagOf(st.d), s)
  }

  lemma TracedIsBelow(bag: Bag, s: U64, t: U64)
    requires Selects(bag, s) && Traced(bag, t)
    ensures t < s
  {
    MentionedExactly(bag, t);
    assert Tally(bag, t).lifecycle > 0;
    assert t as nat in EvidenceOf(bag);
  }

  lemma StepInvariant(st: State, i: Invocation)
    requires Invariant(st)
    ensures Invariant(Step(st, i))
  {
    hide BagOf, Selects, Invoke, Traced, Within, Ours;
    if Selects(BagOf(st.d), i.sequence) {
      var r := Invoke(st.d, i.sequence, i.script);
      assert i.sequence >= 1 by { SelectsPositive(BagOf(st.d), i.sequence); }
      InvokeEffect(st.d, i.sequence, i.script);
      forall s | s in st.spawned ensures s < i.sequence && Traced(BagOf(r.d), s) {
        TracedIsBelow(BagOf(st.d), i.sequence, s);
        TracedStays(BagOf(st.d), BagOf(r.d), s, NotesFor(i.sequence));
      }
      var after := Step(st, i);
      assert after == State(r.d, if r.spawned then st.spawned + [i.sequence] else st.spawned);
      AscendingAppend(st.spawned, i.sequence);
    }
  }

  lemma AscendingAppend(xs: seq<U64>, s: U64)
    requires Ascending(xs) && forall x | x in xs :: x < s
    ensures Ascending(xs + [s])
  {
    forall i, j | 0 <= i < j < |xs + [s]| ensures (xs + [s])[i] < (xs + [s])[j] {
      assert xs[i] in xs;
    }
  }

  lemma SelectsPositive(bag: Bag, s: nat)
    requires Selects(bag, s)
    ensures s >= 1
  {
  }

  lemma {:induction false} RunInvariant(campaign: string, invocations: seq<Invocation>)
    ensures Invariant(Run(campaign, invocations))
    decreases |invocations|
  {
    if invocations != [] {
      RunInvariant(campaign, invocations[..|invocations| - 1]);
      StepInvariant(Run(campaign, invocations[..|invocations| - 1]), invocations[|invocations| - 1]);
    }
  }

  /** No two invocations ever spawn children for the same sequence, whatever dies or tears in between:
      the sequences spawned strictly ascend. */
  lemma NoSequenceSpawnedTwice(campaign: string, invocations: seq<Invocation>)
    ensures Ascending(Run(campaign, invocations).spawned)
  {
    RunInvariant(campaign, invocations);
  }

  // ---------------------------------------------------------------- frontier --

  lemma TallyUnchanged(before: Bag, after: Bag, s: U64, k: U64)
    requires Within(before, after, NotesFor(s)) && !Rejected(after) && k != s
    ensures Tally(after, k) == Tally(before, k)
  {
    assert forall n | n !in NotesFor(s) :: after[n] == before[n] by {
      forall n | n !in NotesFor(s) ensures after[n] == before[n] { assert n !in after - before; }
    }
  }

  /** Later evidence keeps every completed prefix, or has become unreadable for good. */
  ghost predicate Keeps(before: Bag, after: Bag) {
    && (Rejected(before) ==> Rejected(after))
    && (Rejected(after) || forall f :: CompleteThrough(EvidenceOf(before), f) ==> CompleteThrough(EvidenceOf(after), f))
  }

  lemma StepKeeps(st: State, i: Invocation)
    requires Ours(st.d)
    ensures Keeps(BagOf(st.d), BagOf(Step(st, i).d)) && Ours(Step(st, i).d)
  {
    hide BagOf, Invoke, Within, Ours, Rejected;
    var before, after := BagOf(st.d), BagOf(Step(st, i).d);
    if Selects(before, i.sequence) {
      InvokeEffect(st.d, i.sequence, i.script);
      if !Rejected(after) {
        forall f, k | CompleteThrough(EvidenceOf(before), f) && 1 <= k <= f ensures CompleteAt(EvidenceOf(after), k) {
          assert CompleteAt(EvidenceOf(before), k);
          TallyUnchanged(before, after, i.sequence, k);
          MentionedExactly(before, k);
          MentionedExactly(after, k);
        }
      }
    }
  }

  lemma {:induction false} RunKeeps(campaign: string, invocations: seq<Invocation>, more: seq<Invocation>)
    ensures Keeps(BagOf(Run(campaign, invocations).d), BagOf(Run(campaign, invocations + more).d))
    decreases |more|
  {
    hide BagOf, Step, EvidenceOf, Rejected;
    if more == [] {
      assert invocations + more == invocations;
    } else {
      var n := |more| - 1;
      var all := invocations + more;
      assert all[..|all| - 1] == invocations + more[..n] && all[|all| - 1] == more[n];
      RunKeeps(campaign, invocations, more[..n]);
      RunInvariant(campaign, invocations + more[..n]);
      StepKeeps(Run(campaign, invocations + more[..n]), more[n]);
    }
  }

  /** The reported frontier never decreases while the evidence can be read; once a torn append or a leftover
      temporary file makes a scan fail, every later status is inconsistent with frontier 0. */
  lemma FrontierNeverDecreases(campaign: string, earlier: seq<Invocation>, more: seq<Invocation>, a: ResumeStatus, b: ResumeStatus)
    requires StatusOf(BagOf(Run(campaign, earlier).d), a) && StatusOf(BagOf(Run(campaign, earlier + more).d), b)
    ensures a.frontier <= b.frontier || b == Inconsistent(0, None, ScanRejected)
    ensures a == Inconsistent(0, None, ScanRejected) ==> b == a
  {
    hide BagOf, EvidenceOf, Rejected, Run;
    RunKeeps(campaign, earlier, more);
    var before, after := BagOf(Run(campaign, earlier).d), BagOf(Run(campaign, earlier + more).d);
    if !Rejected(after) {
      FrontierMaximal(EvidenceOf(after), b, a.frontier);
    }
  }

  /** Once one of its events has been recorded, no later evidence selects a sequence again. */
  lemma StartedNeverReselected(campaign: string, earlier: seq<Invocation>, more: seq<Invocation>, s: U64)
    requires Traced(BagOf(Run(campaign, earlier).d), s)
    ensures !Selects(BagOf(Run(campaign, earlier + more).d), s)
  {
    RunKeepsTrace(campaign, earlier, more, s);
    if Selects(BagOf(Run(campaign, earlier + more).d), s) {
      TracedIsBelow(BagOf(Run(campaign, earlier + more).d), s, s);
    }
  }

  lemma {:induction false} RunKeepsTrace(campaign: string, invocations: seq<Invocation>, more: seq<Invocation>, s: U64)
    requires Traced(BagOf(Run(campaign, invocations).d), s)
    ensures Traced(BagOf(Run(campaign, invocations + more).d), s)
    decreases |more|
  {
    hide BagOf, Traced, Selects, Invoke, Within;
    if more == [] {
      assert invocations + more == invocations;
    } else {
      var n := |more| - 1;
      var all := invocations + more;
      assert all[..|all| - 1] == invocations + more[..n] && all[|all| - 1] == more[n];
      RunKeepsTrace(campaign, invocations, more[..n], s);
      RunInvariant(campaign, invocations + more[..n]);
      var st := Run(campaign, invocations + more[..n]);
      if Selects(BagOf(st.d), more[n].sequence) {
        SelectsPositive(BagOf(st.d), more[n].sequence);
        InvokeEffect(st.d, more[n].sequence, more[n].script);
        TracedStays(BagOf(st.d), BagOf(Step(st, more[n]).d), s, NotesFor(more[n].sequence));
      }
    }
  }

  /** A status that is not ready is final: no later invocation changes anything. */
  lemma {:induction false} NotReadyIsFinal(campaign: string, earlier: seq<Invocation>, more: seq<Invocation>, st: ResumeStatus)
    requires StatusOf(BagOf(Run(campaign, earlier).d), st) && st.state != Ready
    ensures Run(campaign, earlier + more) == Run(campaign, earlier)
    decreases |more|
  {
    hide BagOf, StatusOf, Selects, Invoke;
    if more == [] {
      assert earlier + more == earlier;
    } else {
      var n := |more| - 1;
      var all := earlier + more;
      assert all[..|all| - 1] == earlier + more[..n] && all[|all| - 1] == more[n];
      NotReadyIsFinal(campaign, earlier, more[..n], st);
      SelectionExactly(Run(campaign, earlier).d, st, more[n].sequence);
    }
  }

  // ------------------------------------------- what one invocation leaves behind --

  /** The window between `finalize_success`'s two writes. */
  predicate Unsealed(e: SequenceEvidence) {
    e.singleton && e.successes == 0 && e.failures == 0 && e.failureFiles == 0
  }

  ghost predicate OnlyLifecycle(e: SequenceEvidence) {
    !e.singleton && e.successes == 0 && e.failures == 0 && e.failureFiles == 0
  }

  ghost predicate Classified(e: SequenceEvidence) {
    e == NoEvidence || Incomplete(e) || Failed(e) || Complete(e) || Unsealed(e)
  }

  lemma LifecycleOnly(before: Bag, after: Bag, s: U64)
    requires OnlyLifecycle(Tally(before, s)) && Within(before, after, {EventNote(s, Lifecycle)}) && !Rejected(after)
    ensures OnlyLifecycle(Tally(after, s))
  {
    assert forall n | n != EventNote(s, Lifecycle) :: after[n] == before[n] by {
      forall n | n != EventNote(s, Lifecycle) ensures after[n] == before[n] { assert n !in after - before; }
    }
  }

  /** Two durable steps in a row: neither, the first, or both took effect. */
  lemma TwoSteps(d: Durable, s: U64, first: Action, second: Action, script: seq<Outcome>)
    requires s >= 1 && Ours(d) && NoteFor(s, first).Some? && NoteFor(s, second).Some?
    ensures var r := Execute(d, s, [first, second], script);
      var one, two := multiset{NoteFor(s, first).value}, multiset{NoteFor(s, second).value};
      && (Rejected(BagOf(r.d)) || BagOf(r.d) == BagOf(d)
          || BagOf(r.d) == BagOf(d) + one
          || (NoteFor(s, first).value in BagOf(r.d) && BagOf(r.d) == BagOf(d) + two)
          || BagOf(r.d) == BagOf(d) + one + two)
      && (r.end.Finished? && !Rejected(BagOf(r.d)) ==>
          NoteFor(s, first).value in BagOf(r.d) && NoteFor(s, second).value in BagOf(r.d))
  {
    hide Rejected, BagOf, Perform, Seen, NoteFor;
    if script != [] {
      PerformEffect(d, s, first, script[0]);
      var after := Perform(d, s, first, script[0]);
      if Seen(d, s, first, script[0]).Ok? {
        assert [first, second][1..] == [second];
        if script[1..] != [] {
          PerformEffect(after, s, second, script[1]);
          assert [second][1..] == [];
          var last := Perform(after, s, second, script[1]);
          var tail := Execute(after, s, [second], script[1..]);
          assert Execute(last, s, [second][1..], script[1..][1..]) == Result(last, false, Finished, script[1..][1..], []);
          assert tail.d == last && (tail.end.Finished? ==> Seen(after, s, second, script[1]).Ok?);
          assert Execute(d, s, [first, second], script).d == tail.d;
          assert Rejected(BagOf(last)) || NoteFor(s, first).value in BagOf(after);
          assert Rejected(BagOf(last)) || BagOf(last) == BagOf(after) || BagOf(last) == BagOf(after) + multiset{NoteFor(s, second).value};
          assert Rejected(BagOf(last)) || NoteFor(s, first).value in BagOf(last);
        }
      }
    }
  }

  lemma SelectedTally(bag: Bag, s: nat, k: U64)
    requires Selects(bag, s) && k >= 1
    ensures k < s ==> Complete(Tally(bag, k))
    ensures k >= s ==> Tally(bag, k) == NoEvidence
  {
    MentionedExactly(bag, k);
    assert k < s ==> CompleteAt(EvidenceOf(bag), k);
  }

  lemma CompleteAtTally(bag: Bag, k: U64)
    ensures CompleteAt(EvidenceOf(bag), k) <==> Complete(Tally(bag, k))
    ensures k as nat in EvidenceOf(bag) <==> Tally(bag, k) != NoEvidence
  {
    MentionedExactly(bag, k);
  }

  lemma ShapeAfterSuccess(before: Bag, after: Bag, s: U64)
    requires OnlyLifecycle(Tally(before, s))
    requires var one, two := multiset{Singleton(s)}, multiset{EventNote(s, EventKind.Success)};
      after == before || after == before + one || (Singleton(s) in after && after == before + two) || after == before + one + two
    ensures Classified(Tally(after, s)) && Tally(before, s).lifecycle <= Tally(after, s).lifecycle
    ensures Singleton(s) in after && EventNote(s, EventKind.Success) in after ==> Complete(Tally(after, s))
  {
    var one, two := multiset{Singleton(s)}, multiset{EventNote(s, EventKind.Success)};
    TallyBump(before, Singleton(s));
    TallyBump(before, EventNote(s, EventKind.Success));
    TallyBump(before + one, EventNote(s, EventKind.Success));
    assert Singleton(s) !in before + two;
  }

  lemma ShapeAfterFailure(before: Bag, after: Bag, s: U64)
    requires OnlyLifecycle(Tally(before, s))
    requires var one, two := multiset{FailureFile(s)}, multiset{EventNote(s, EventKind.Failure)};
      after == before || after == before + one || (FailureFile(s) in after && after == before + two) || after == before + one + two
    ensures Classified(Tally(after, s)) && Tally(before, s).lifecycle <= Tally(after, s).lifecycle
    ensures FailureFile(s) in after && EventNote(s, EventKind.Failure) in after ==> Failed(Tally(after, s)) && Tally(after, s).failures == 1
  {
    var one, two := multiset{FailureFile(s)}, multiset{EventNote(s, EventKind.Failure)};
    TallyBump(before, FailureFile(s));
    TallyBump(before, EventNote(s, EventKind.Failure));
    TallyBump(before + one, EventNote(s, EventKind.Failure));
    assert FailureFile(s) !in before + two;
  }

  /** Where the two final writes can leave a sequence that has lifecycle events only. */
  lemma EndingShape(d: Durable, s: U64, success: bool, script: seq<Outcome>)
    requires s >= 1 && Ours(d) && OnlyLifecycle(Tally(BagOf(d), s))
    ensures var r := Execute(d, s, if success then SUCCESS_PROGRAM else FAILURE_PROGRAM, script);
      var e := Tally(BagOf(r.d), s);
      Rejected(BagOf(r.d)) || (Classified(e) && Tally(BagOf(d), s).lifecycle <= e.lifecycle && (r.end.Finished? && success ==> Complete(e)))
  {
    hide Rejected, BagOf, Execute, Classified, Complete, Tally;
    var put, phase := if success then PutSingleton else PutFailure, if success then Phase.TerminalSuccess else Phase.TerminalFailure;
    TwoSteps(d, s, put, Record(phase), script);
    var r := Execute(d, s, [put, Record(phase)], script);
    if !Rejected(BagOf(r.d)) {
      if success { ShapeAfterSuccess(BagOf(d), BagOf(r.d), s); } else { ShapeAfterFailure(BagOf(d), BagOf(r.d), s); }
    }
  }

  /** Whatever happens to the invocation for s, s ends up in one of five shapes or the evidence is unreadable;
      nothing was spawned if s shows no trace, and an invocation that reports success left s complete. */
  lemma InvocationShape(d: Durable, s: U64, script: seq<Outcome>)
    requires Ours(d) && Selects(BagOf(d), s)
    ensures var r := Invoke(d, s, script);
      var e := Tally(BagOf(r.d), s);
      && (Rejected(BagOf(r.d)) || Classified(e))
      && (r.spawned ==> Rejected(BagOf(r.d)) || e != NoEvidence)
      && (r.end.Finished? ==> Rejected(BagOf(r.d)) || Complete(e))
  {
    hide Rejected, BagOf, Execute, Within, Selects, Classified, Complete, Tally;
    SelectsPositive(BagOf(d), s);
    SelectedTally(BagOf(d), s, s);
    ProgramShape(s);
    var r := Invoke(d, s, script);
    var body := Execute(d, s, Program(s), script);
    ExecuteWithin(d, s, Program(s), script, {EventNote(s, Lifecycle)});
    InvokeEffect(d, s, script);
    if !Rejected(BagOf(r.d)) {
      assert !Rejected(BagOf(body.d)) by {
        if !body.end.Died? {
          ExecuteWithin(body.d, s, if body.end.Finished? then SUCCESS_PROGRAM else FAILURE_PROGRAM, body.rest, NotesFor(s));
        }
      }
      if r.spawned { TracedTally(BagOf(r.d), s); }
      LifecycleOnly(BagOf(d), BagOf(body.d), s);
      LifecycleIsClassified(Tally(BagOf(body.d), s));
      EndingShape(body.d, s, body.end.Finished?, body.rest);
    }
  }

  lemma TracedTally(bag: Bag, s: U64)
    requires Traced(bag, s) && !Rejected(bag)
    ensures Tally(bag, s).lifecycle > 0
  {
  }

  lemma LifecycleIsClassified(e: SequenceEvidence)
    requires OnlyLifecycle(e)
    ensures Classified(e)
  {
  }

  /** An invocation that left s complete in readable evidence selects the next sequence. */
  lemma CompleteSelectsNext(d: Durable, s: U64, script: seq<Outcome>)
    requires Ours(d) && Selects(BagOf(d), s) && s < U64_MAX
    requires !Rejected(BagOf(Invoke(d, s, script).d)) && Complete(Tally(BagOf(Invoke(d, s, script).d), s))
    ensures Selects(BagOf(Invoke(d, s, script).d), s + 1)
  {
    hide BagOf, Invoke, Tally, EvidenceOf, Within, Complete;
    var after := BagOf(Invoke(d, s, script).d);
    SelectsPositive(BagOf(d), s);
    InvokeEffect(d, s, script);
    OthersAfter(d, s, script);
    CompleteAtTally(after, s);
  }

  /** Everywhere but at s the evidence is what it was: complete below, nothing above. */
  lemma OthersAfter(d: Durable, s: U64, script: seq<Outcome>)
    requires Ours(d) && Selects(BagOf(d), s) && !Rejected(BagOf(Invoke(d, s, script).d))
    ensures var ev := EvidenceOf(BagOf(Invoke(d, s, script).d));
      CompleteThrough(ev, s - 1) && NothingAbove(ev, s)
  {
    hide BagOf, Invoke, Rejected, Tally, EvidenceOf, Within;
    var after := BagOf(Invoke(d, s, script).d);
    SelectsPositive(BagOf(d), s);
    InvokeEffect(d, s, script);
    var ev := EvidenceOf(after);
    forall k: U64 | k >= 1 && k != s
      ensures CompleteAt(ev, k) <==> k < s
      ensures k > s ==> k !in ev
    {
      TallyUnchanged(BagOf(d), after, s, k);
      SelectedTally(BagOf(d), s, k);
      CompleteAtTally(after, k);
    }
  }

  /** The next reconciliation after an invocation that was selected for s. */
  lemma NextStatus(d: Durable, s: U64, script: seq<Outcome>, st: ResumeStatus)
    requires Ours(d) && Selects(BagOf(d), s) && StatusOf(BagOf(Invoke(d, s, script).d), st)
    ensures var r := Invoke(d, s, script);
      var e := Tally(BagOf(r.d), s);
      if Rejected(BagOf(r.d)) then st == Inconsistent(0, None, ScanRejected)
      else if e == NoEvidence then st == ReadyAt(s - 1) && !r.spawned
      else if Complete(e) then st == if s < U64_MAX then ReadyAt(s) else Inconsistent(s, Some(s), Overflow)
      else if Incomplete(e) then st == Blocked(BlockedIncomplete, s - 1, s, NonterminalLifecycle)
      else if Failed(e) then st == Blocked(BlockedFailure, s - 1, s, Reason.TerminalFailure)
      else Unsealed(e) && st == Inconsistent(s - 1, Some(s), SingletonWithoutSuccess)
  {
    hide BagOf, Invoke, Rejected, Tally, EvidenceOf, Within;
    var after := BagOf(Invoke(d, s, script).d);
    SelectsPositive(BagOf(d), s);
    InvocationShape(d, s, script);
    InvokeEffect(d, s, script);
    if !Rejected(after) {
      var ev := EvidenceOf(after);
      OthersAfter(d, s, script);
      CompleteAtTally(after, s);
      EntryIsTally(after, s);
      BagIsNumbered(Invoke(d, s, script).d);
      EvidenceIsScanned(after);
      FrontierMaximal(ev, st, s - 1);
      if CompleteAt(ev, s) { FrontierMaximal(ev, st, s); }
      assert st.frontier >= s ==> CompleteAt(ev, s);
      assert CompleteAt(ev, s + 1) || st.frontier <= s;
    }
  }

  // --------------------------------------------------------- working storage --

  /** An event is written in full, and then the sampler behind the same observer reports an error. */
  predicate ObserverErrs(a: Action, o: Outcome) {
    a.Record? && PhaseKind(a.phase).Lifecycle? && o.fate.Error? && o.written.Full?
  }

  /** The script keeps the controller alive and every durable write of the program takes full effect. */
  ghost predicate Works(todo: seq<Action>, script: seq<Outcome>)
    decreases |todo|
  {
    todo == [] ||
    (&& script != [] && !script[0].fate.Die?
     && (NoteFor(1, todo[0]).Some? ==> script[0].fate.Ok? || ObserverErrs(todo[0], script[0]))
     && (script[0].fate.Ok? ==> Works(todo[1..], script[1..])))
  }

  lemma SingletonIsNew(d: Durable, s: U64)
    requires s >= 1 && !Rejected(BagOf(d)) && !Tally(BagOf(d), s).singleton
    ensures !SingletonExists(d, s)
  {
    var i := IndexOf(d.iterations, IterationName(s));
    if i < |d.iterations| {
      var note := OfIteration(d.iterations[i], d.campaign);
      assert note == OfIterations(d.iterations, d.campaign)[i];
      assert note in BagOf(d);
      IterationNameExactly(IterationName(s), s);
    }
  }

  lemma RecordWorks(d: Durable, s: U64, phase: Phase, o: Outcome)
    requires s >= 1 && !Unfinished(d.log) && !Rejected(BagOf(d)) && (o.fate.Ok? || o.written.Full?)
    ensures var e := Perform(d, s, Record(phase), o);
      BagOf(e) == BagOf(d) + multiset{EventNote(s, PhaseKind(phase))} && !Rejected(BagOf(e)) && !Unfinished(e.log)
  {
    hide BagOf, Rejected;
    AppendEffect(d, s, phase, Full);
    NoteStep(BagOf(d), EventNote(s, PhaseKind(phase)));
  }

  lemma {:induction false} ExecuteWorks(d: Durable, s: U64, todo: seq<Action>, script: seq<Outcome>)
    requires s >= 1 && Ours(d) && !Unfinished(d.log) && !Rejected(BagOf(d))
    requires Works(todo, script) && forall a | a in todo :: BodyAction(a)
    ensures var r := Execute(d, s, todo, script);
      !r.end.Died? && !Unfinished(r.d.log) && !Rejected(BagOf(r.d))
    decreases |todo|
  {
    hide BagOf, Rejected, Perform;
    if todo != [] {
      var a, o := todo[0], script[0];
      assert BodyAction(a);
      var after := Perform(d, s, a, o);
      PerformEffect(d, s, a, o);
      assert !Unfinished(after.log) && !Rejected(BagOf(after)) by {
        if a.Record? { RecordWorks(d, s, a.phase, o); } else { assert after == d by { SilentStep(d, s, a, o); } }
      }
      if o.fate.Ok? { ExecuteWorks(after, s, todo[1..], script[1..]); }
    }
  }

  lemma SilentStep(d: Durable, s: U64, a: Action, o: Outcome)
    requires a.Spawn? || a.Require?
    ensures Perform(d, s, a, o) == d
  {
  }

  /** With working storage every invocation finalizes exactly one of success and failure, also when the iteration
      or the sampler behind a recorded event fails: a success leaves s complete, a failure leaves its artifact and
      its terminal event, and the log is never torn. */
  lemma WorkingStorageFinalizesOne(d: Durable, s: U64, script: seq<Outcome>)
    requires Ours(d) && Selects(BagOf(d), s) && !Unfinished(d.log)
    requires var body := Execute(d, s, Program(s), script);
      Works(Program(s), script) && Works(if body.end.Finished? then SUCCESS_PROGRAM else FAILURE_PROGRAM, body.rest)
    ensures var r := Invoke(d, s, script);
      var e := Tally(BagOf(r.d), s);
      && !r.end.Died? && !Rejected(BagOf(r.d)) && !Unfinished(r.d.log)
      && (if r.end.Finished? then Complete(e) else Failed(e) && e.failures == 1 && e.failureFiles >= 1)
  {
    hide BagOf, Rejected, Selects, Execute;
    SelectsPositive(BagOf(d), s);
    SelectsReadable(BagOf(d), s);
    SelectedTally(BagOf(d), s, s);
    ProgramShape(s);
    var body := Execute(d, s, Program(s), script);
    ExecuteWorks(d, s, Program(s), script);
    ExecuteWithin(d, s, Program(s), script, {EventNote(s, Lifecycle)});
    LifecycleOnly(BagOf(d), BagOf(body.d), s);
    FinalWrites(body.d, s, body.rest, body.end.Finished?);
  }

  lemma SelectsReadable(bag: Bag, s: nat)
    requires Selects(bag, s)
    ensures !Rejected(bag)
  {
  }

  lemma FinalWrites(d: Durable, s: U64, script: seq<Outcome>, success: bool)
    requires s >= 1 && Ours(d) && !Unfinished(d.log) && !Rejected(BagOf(d)) && OnlyLifecycle(Tally(BagOf(d), s))
    requires Works(if success then SUCCESS_PROGRAM else FAILURE_PROGRAM, script)
    ensures var r := Execute(d, s, if success then SUCCESS_PROGRAM else FAILURE_PROGRAM, script);
      var e := Tally(BagOf(r.d), s);
      && r.end.Finished? && !Rejected(BagOf(r.d)) && !Unfinished(r.d.log)
      && (if success then Complete(e) else Failed(e) && e.failures == 1 && e.failureFiles >= 1)
  {
    hide BagOf, Rejected, Perform;
    var program := if success then SUCCESS_PROGRAM else FAILURE_PROGRAM;
    var put, phase := program[0], program[1].phase;
    var o := script[0];
    assert program[1..] == [Record(phase)] && [Record(phase)][1..] == [];
    assert NoteFor(1, put).Some? && Works([Record(phase)], script[1..]);
    var after := Perform(d, s, put, o);
    assert after.log == d.log && Seen(d, s, put, o).Ok? && !Rejected(BagOf(after)) && Ours(after)
      && NoteFor(s, put).value in BagOf(after) && OnlyPut(BagOf(d), BagOf(after), s, put)
    by { PutWorks(d, s, put, o); }
    var last := Perform(after, s, Record(phase), script[1]);
    RecordWorks(after, s, phase, script[1]);
    assert Execute(last, s, [Record(phase)][1..], script[1..][1..]) == Result(last, false, Finished, script[1..][1..], []);
    var tail := Execute(after, s, [Record(phase)], script[1..]);
    assert tail.d == last && tail.end.Finished?;
    assert Execute(d, s, program, script).d == last;
    assert EventNote(s, PhaseKind(phase)) in BagOf(last);
    if success { ShapeAfterSuccess(BagOf(d), BagOf(last), s); } else { ShapeAfterFailure(BagOf(d), BagOf(last), s); }
  }

  ghost predicate OnlyPut(before: Bag, after: Bag, s: U64, put: Action)
    requires NoteFor(s, put).Some?
  {
    after == before + multiset{NoteFor(s, put).value}
  }

  lemma PutWorks(d: Durable, s: U64, put: Action, o: Outcome)
    requires s >= 1 && Ours(d) && !Rejected(BagOf(d)) && OnlyLifecycle(Tally(BagOf(d), s))
    requires (put.PutSingleton? || put.PutFailure?) && o.fate.Ok?
    ensures var e := Perform(d, s, put, o);
      && e.log == d.log && Seen(d, s, put, o).Ok? && !Rejected(BagOf(e)) && Ours(e)
      && NoteFor(s, put).value in BagOf(e) && OnlyPut(BagOf(d), BagOf(e), s, put)
  {
    hide BagOf, Rejected;
    if put.PutSingleton? {
      SingletonIsNew(d, s);
      PutSingletonEffect(d, s, Done);
      NoteStep(BagOf(d), Singleton(s));
      EntryIsTally(BagOf(d), s);
    } else {
      PutFailureEffect(d, s, o.timestamp, Done);
      NoteStep(BagOf(d), FailureFile(s));
    }
  }

  /** Dying between `finalize_success`'s two writes wedges the campaign: the singleton is there, its terminal
      event is not, and the evidence is inconsistent. */
  lemma DyingBetweenFinalWrites(d: Durable, s: U64, script: seq<Outcome>, st: ResumeStatus)
    requires Ours(d) && Selects(BagOf(d), s) && !Unfinished(d.log)
    requires var body := Execute(d, s, Program(s), script);
      Works(Program(s), script) && body.end.Finished? && |body.rest| == 1 && body.rest[0].fate.Ok?
    requires StatusOf(BagOf(Invoke(d, s, script).d), st)
    ensures st == Inconsistent(s - 1, Some(s), SingletonWithoutSuccess)
  {
    hide BagOf, Rejected, Selects, Execute, StatusOf, Perform, Tally;
    SelectsPositive(BagOf(d), s);
    SelectsReadable(BagOf(d), s);
    SelectedTally(BagOf(d), s, s);
    ProgramShape(s);
    var body := Execute(d, s, Program(s), script);
    ExecuteWorks(d, s, Program(s), script);
    ExecuteWithin(d, s, Program(s), script, {EventNote(s, Lifecycle)});
    LifecycleOnly(BagOf(d), BagOf(body.d), s);
    PutWorks(body.d, s, PutSingleton, body.rest[0]);
    var after := Perform(body.d, s, PutSingleton, body.rest[0]);
    DiesAfterFirst(body.d, s, body.rest);
    TallyBump(BagOf(body.d), Singleton(s));
    NextStatus(d, s, script, st);
    BumpedSingleton(Tally(BagOf(body.d), s));
  }

  lemma DiesAfterFirst(d: Durable, s: U64, script: seq<Outcome>)
    requires |script| == 1 && Seen(d, s, PutSingleton, script[0]).Ok?
    ensures Execute(d, s, SUCCESS_PROGRAM, script).d == Perform(d, s, PutSingleton, script[0])
  {
    assert Execute(Perform(d, s, PutSingleton, script[0]), s, SUCCESS_PROGRAM[1..], script[1..]).d == Perform(d, s, PutSingleton, script[0]);
  }

  lemma BumpedSingleton(e: SequenceEvidence)
    requires OnlyLifecycle(e)
    ensures var b := e.(singleton := true);
      Unsealed(b) && b != NoEvidence && !Complete(b) && !Incomplete(b) && !Failed(b)
  {
  }

  /** A record that lost only its newline still reads as complete, so the evidence can select s; but the next
      invocation that gets as far as spawning a child has run into that line, and nothing can be read again. */
  lemma {:induction false} LostNewlinePoisons(d: Durable, s: U64, todo: seq<Action>, script: seq<Outcome>, allowed: set<Note>)
    requires s >= 1 && Ours(d) && Unfinished(d.log) && PlannedFirst(todo) && Permits(s, todo, allowed)
    requires Execute(d, s, todo, script).spawned
    ensures Rejected(BagOf(Execute(d, s, todo, script).d))
    decreases |todo|
  {
    hide BagOf, Rejected, Perform;
    var a, o := todo[0], script[0];
    var after := Perform(d, s, a, o);
    PerformEffect(d, s, a, o);
    ExecuteWithin(after, s, todo[1..], script[1..], allowed);
    if a.Record? && PhaseKind(a.phase).Lifecycle? {
      AppendEffect(d, s, a.phase, Full);
      PerformRecord(d, s, a.phase, o);
    } else {
      assert !a.Record? || o.fate.Ok?;
      if a.Record? {
        AppendEffect(d, s, a.phase, Full);
        PerformRecord(d, s, a.phase, o);
      } else {
        LogUntouched(d, s, a, o);
        LostNewlinePoisons(after, s, todo[1..], script[1..], allowed);
      }
    }
  }

  lemma PerformRecord(d: Durable, s: U64, phase: Phase, o: Outcome)
    requires o.fate.Ok?
    ensures Perform(d, s, Record(phase), o) == d.(log := AppendRecord(d.log, EventFor(d.campaign, s, phase), Full))
  {
  }

  lemma LogUntouched(d: Durable, s: U64, a: Action, o: Outcome)
    requires !a.Record?
    ensures Perform(d, s, a, o).log == d.log
  {
  }

  // ------------------------------------------------------ what an iteration records --

  /** The phases a finished iteration appends, as they stand in the log. */
  const CLEAN_LOG := [
    "iteration-planned", "iteration-started", "workload-child-started", "workload-child-completed",
    "verification-child-started", "verification-child-completed", "cleanup-completed", "iteration-terminal-success"]

  const CRASH_LOG := [
    "iteration-planned", "iteration-started", "workload-child-started", "crash-marker-observed", "sigkill-delivered",
    "crash-child-reaped", "post-crash-state-observed", "plain-relaunch-child-started", "plain-relaunch-child-completed",
    "recovery-child-started", "recovery-child-completed", "continuation-child-started", "continuation-child-completed",
    "verification-child-started", "verification-child-completed", "cleanup-completed", "iteration-terminal-success"]

  /** The crash slots of the schedule. */
  predicate CrashSlot(s: nat) { s % 50 == 24 || s % 50 == 49 }

  function LogOf(s: nat): seq<string> { if CrashSlot(s) then CRASH_LOG else CLEAN_LOG }

  function ChildrenOf(s: nat): seq<Child> {
    if CrashSlot(s) then [Workload, PlainRelaunch, Recovery, Continuation, Verification] else [Workload, Verification]
  }

  function EventLine(campaign: string, s: U64, phase: string): Line {
    Parsed(EventRecord("oxide-batch-workloads.endurance-event", 1, campaign, s, phase))
  }

  function EventLines(campaign: string, s: U64, phases: seq<string>): (lines: seq<Line>)
    ensures |lines| == |phases| && forall i | 0 <= i < |phases| :: lines[i] == EventLine(campaign, s, phases[i])
  {
    seq(|phases|, i requires 0 <= i < |phases| => EventLine(campaign, s, phases[i]))
  }

  function Phases(todo: seq<Action>): seq<string> {
    if todo == [] then [] else (if todo[0].Record? then [PhaseText(todo[0].phase)] else []) + Phases(todo[1..])
  }

  function Spawns(todo: seq<Action>): seq<Child> {
    if todo == [] then [] else (if todo[0].Spawn? then [todo[0].child] else []) + Spawns(todo[1..])
  }

  lemma {:induction false} PhasesAppend(a: seq<Action>, b: seq<Action>)
    ensures Phases(a + b) == Phases(a) + Phases(b) && Spawns(a + b) == Spawns(a) + Spawns(b)
  {
    if a == [] {
      assert a + b == b;
    } else {
      assert (a + b)[1..] == a[1..] + b;
      PhasesAppend(a[1..], b);
    }
  }

  /** A program that finishes attempts every step, and on a finished line its events are the log's new lines. */
  lemma {:induction false} FinishedAppends(d: Durable, s: U64, todo: seq<Action>, script: seq<Outcome>)
    requires !Unfinished(d.log) && Execute(d, s, todo, script).end.Finished?
    ensures var r := Execute(d, s, todo, script);
      && r.trace == todo && !Unfinished(r.d.log) && r.d.campaign == d.campaign
      && r.d.log.lines == d.log.lines + EventLines(d.campaign, s, Phases(todo))
    decreases |todo|
  {
    hide PutEntry, PhaseText, SingletonExists;
    if todo != [] {
      var after := Perform(d, s, todo[0], script[0]);
      FinishedAppends(after, s, todo[1..], script[1..]);
      var head := if todo[0].Record? then [PhaseText(todo[0].phase)] else [];
      assert EventLines(d.campaign, s, head + Phases(todo[1..])) == EventLines(d.campaign, s, head) + EventLines(d.campaign, s, Phases(todo[1..]));
      assert after.log.lines == d.log.lines + EventLines(d.campaign, s, head);
    }
  }

  /** Whatever happens, only a prefix of the program is attempted. */
  lemma {:induction false} TraceIsPrefix(d: Durable, s: U64, todo: seq<Action>, script: seq<Outcome>)
    ensures Execute(d, s, todo, script).trace <= todo
    decreases |todo|
  {
    hide Perform, Seen;
    if todo != [] && script != [] { TraceIsPrefix(Perform(d, s, todo[0], script[0]), s, todo[1..], script[1..]); }
  }

  lemma WorkloadTexts()
    ensures PhaseText(ChildStarted(Workload)) == "workload-child-started"
    ensures PhaseText(ChildCompleted(Workload)) == "workload-child-completed"
  {
  }

  lemma VerificationTexts()
    ensures PhaseText(ChildStarted(Verification)) == "verification-child-started"
    ensures PhaseText(ChildCompleted(Verification)) == "verification-child-completed"
  {
  }

  lemma PlainRelaunchTexts()
    ensures PhaseText(ChildStarted(PlainRelaunch)) == "plain-relaunch-child-started"
    ensures PhaseText(ChildCompleted(PlainRelaunch)) == "plain-relaunch-child-completed"
  {
  }

  lemma RecoveryTexts()
    ensures PhaseText(ChildStarted(Recovery)) == "recovery-child-started"
    ensures PhaseText(ChildCompleted(Recovery)) == "recovery-child-completed"
  {
  }

  lemma ContinuationTexts()
    ensures PhaseText(ChildStarted(Continuation)) == "continuation-child-started"
    ensures PhaseText(ChildCompleted(Continuation)) == "continuation-child-completed"
  {
  }

  lemma PhasesCons(a: Action, rest: seq<Action>)
    ensures Phases([a] + rest) == (if a.Record? then [PhaseText(a.phase)] else []) + Phases(rest)
    ensures Spawns([a] + rest) == (if a.Spawn? then [a.child] else []) + Spawns(rest)
  {
    assert ([a] + rest)[1..] == rest;
  }

  lemma ChildPhases(child: Child)
    ensures Phases(RunChild(child)) == [PhaseText(ChildStarted(child)), PhaseText(ChildCompleted(child))]
    ensures Spawns(RunChild(child)) == [child]
  {
    hide PhaseText;
    var p := RunChild(child);
    assert p[1..][1..] == p[2..] && p[2..][1..] == p[3..] && p[3..][1..] == [];
  }

  lemma FramePhases()
    ensures Phases(PREAMBLE) == ["iteration-planned", "iteration-started"] && Spawns(PREAMBLE) == []
    ensures Phases(ENDING + SUCCESS_PROGRAM) == ["cleanup-completed", "iteration-terminal-success"]
    ensures Spawns(ENDING + SUCCESS_PROGRAM) == []
  {
    hide Phases, Spawns;
    PhasesNil();
    var last := [Record(Phase.TerminalSuccess)] + [];
    var put := [PutSingleton] + last;
    var join := [Require("resource sampler join")] + put;
    var record := [Record(CleanupCompleted)] + join;
    assert ENDING + SUCCESS_PROGRAM == [Require("cleanup")] + record;
    PhasesCons(Record(Phase.TerminalSuccess), []);
    PhasesCons(PutSingleton, last);
    PhasesCons(Require("resource sampler join"), put);
    PhasesCons(Record(CleanupCompleted), join);
    PhasesCons(Require("cleanup"), record);
    assert PREAMBLE == [Require("resource sampler connection")] + ([Record(IterationPlanned)] + ([Record(IterationStarted)] + []));
    PhasesCons(Record(IterationStarted), []);
    PhasesCons(Record(IterationPlanned), [Record(IterationStarted)] + []);
    PhasesCons(Require("resource sampler connection"), [Record(IterationPlanned)] + ([Record(IterationStarted)] + []));
  }

  const KILL: seq<Action> := CrashProgram()[3..13]

  lemma KillPhases()
    ensures Phases(KILL) == [
      "workload-child-started", "crash-marker-observed", "sigkill-delivered", "crash-child-reaped", "post-crash-state-observed"]
    ensures Spawns(KILL) == [Workload]
  {
    WorkloadTexts();
    hide Phases, Spawns, ChildText;
    var a, b := Require("killed by signal 9"), Require("crash state");
    var tail := [a] + ([b] + ([Record(PostCrashStateObserved)] + []));
    var rest := [Require("kill")] + ([Record(SigkillDelivered)] + ([Record(CrashChildReaped)] + tail));
    var most := [Require("pause marker")] + ([Record(CrashMarkerObserved)] + rest);
    assert KILL == [Spawn(Workload)] + ([Record(ChildStarted(Workload))] + most);
    PhasesNil();
    PhasesCons(Record(PostCrashStateObserved), []);
    PhasesCons(b, [Record(PostCrashStateObserved)] + []);
    PhasesCons(a, [b] + ([Record(PostCrashStateObserved)] + []));
    PhasesCons(Record(CrashChildReaped), tail);
    PhasesCons(Record(SigkillDelivered), [Record(CrashChildReaped)] + tail);
    PhasesCons(Require("kill"), [Record(SigkillDelivered)] + ([Record(CrashChildReaped)] + tail));
    PhasesCons(Record(CrashMarkerObserved), rest);
    PhasesCons(Require("pause marker"), [Record(CrashMarkerObserved)] + rest);
    PhasesCons(Record(ChildStarted(Workload)), most);
    PhasesCons(Spawn(Workload), [Record(ChildStarted(Workload))] + most);
  }

  lemma PhasesNil()
    ensures Phases([]) == [] && Spawns([]) == []
  {
  }

  lemma CleanPhases()
    ensures Phases(CleanProgram() + SUCCESS_PROGRAM) == CLEAN_LOG
    ensures Spawns(CleanProgram() + SUCCESS_PROGRAM) == [Workload, Verification]
  {
    FramePhases();
    ChildPhases(Workload);
    ChildPhases(Verification);
    WorkloadTexts();
    VerificationTexts();
    hide Phases, Spawns, RunChild, PhaseText;
    var last := RunChild(Verification) + (ENDING + SUCCESS_PROGRAM);
    assert CleanProgram() + SUCCESS_PROGRAM == PREAMBLE + (RunChild(Workload) + last);
    PhasesAppend(RunChild(Verification), ENDING + SUCCESS_PROGRAM);
    PhasesAppend(RunChild(Workload), last);
    PhasesAppend(PREAMBLE, RunChild(Workload) + last);
  }

  lemma CrashParts()
    ensures CrashProgram() + SUCCESS_PROGRAM == PREAMBLE + (KILL + (RunChild(PlainRelaunch) + (RunChild(Recovery)
      + (RunChild(Continuation) + (RunChild(Verification) + (ENDING + SUCCESS_PROGRAM))))))
  {
  }

  lemma CrashPhases()
    ensures Phases(CrashProgram() + SUCCESS_PROGRAM) == CRASH_LOG
    ensures Spawns(CrashProgram() + SUCCESS_PROGRAM) == [Workload, PlainRelaunch, Recovery, Continuation, Verification]
  {
    FramePhases();
    KillPhases();
    CrashParts();
    ChildPhases(PlainRelaunch);
    ChildPhases(Recovery);
    ChildPhases(Continuation);
    ChildPhases(Verification);
    PlainRelaunchTexts();
    RecoveryTexts();
    ContinuationTexts();
    VerificationTexts();
    hide Phases, Spawns, RunChild, PhaseText, KILL, CrashProgram, PREAMBLE, ENDING, SUCCESS_PROGRAM;
    var last := RunChild(Verification) + (ENDING + SUCCESS_PROGRAM);
    var third := RunChild(Continuation) + last;
    var second := RunChild(Recovery) + third;
    var first := RunChild(PlainRelaunch) + second;
    PhasesAppend(RunChild(Verification), ENDING + SUCCESS_PROGRAM);
    PhasesAppend(RunChild(Continuation), last);
    PhasesAppend(RunChild(Recovery), third);
    PhasesAppend(RunChild(PlainRelaunch), second);
    PhasesAppend(KILL, first);
    PhasesAppend(PREAMBLE, KILL + first);
  }

  lemma ProgramLog(s: nat)
    ensures Phases(Program(s) + SUCCESS_PROGRAM) == LogOf(s) && Spawns(Program(s) + SUCCESS_PROGRAM) == ChildrenOf(s)
  {
    hide Phases, Spawns, CleanProgram, CrashProgram;
    CleanPhases();
    CrashPhases();
  }

  lemma LinesAppend(campaign: string, s: U64, a: seq<string>, b: seq<string>)
    ensures EventLines(campaign, s, a + b) == EventLines(campaign, s, a) + EventLines(campaign, s, b)
  {
  }

  /** An invocation that ends in success has appended exactly the events of its kind of iteration, in order and with
      nothing between or after them, and has spawned exactly its children, in order. */
  lemma FinishedInvocation(d: Durable, s: U64, script: seq<Outcome>)
    requires !Unfinished(d.log) && Invoke(d, s, script).end.Finished?
    ensures var r := Invoke(d, s, script);
      && r.d.log.lines == d.log.lines + EventLines(d.campaign, s, LogOf(s))
      && Spawns(r.trace) == ChildrenOf(s)
  {
    var body := Execute(d, s, Program(s), script);
    hide Execute, Phases, Spawns, Program, SUCCESS_PROGRAM, FAILURE_PROGRAM, LogOf, ChildrenOf, EventLines;
    FinishedAppends(d, s, Program(s), script);
    FinishedAppends(body.d, s, SUCCESS_PROGRAM, body.rest);
    PhasesAppend(Program(s), SUCCESS_PROGRAM);
    ProgramLog(s);
    LinesAppend(d.campaign, s, Phases(Program(s)), Phases(SUCCESS_PROGRAM));
  }

  /** Every attempt to record a child's start comes right after that child's spawn. */
  predicate SpawnsFirst(trace: seq<Action>) {
    forall i | 0 <= i < |trace| && trace[i].Record? && trace[i].phase.ChildStarted? ::
      i > 0 && trace[i - 1] == Spawn(trace[i].phase.child)
  }

  lemma ProgramsSpawnFirst(s: nat)
    ensures SpawnsFirst(Program(s)) && SpawnsFirst(SUCCESS_PROGRAM) && SpawnsFirst(FAILURE_PROGRAM)
  {
    assert SpawnsFirst(CleanProgram());
    CrashSpawnsFirst();
    hide CleanProgram, CrashProgram;
  }

  lemma CrashSpawnsFirst()
    ensures SpawnsFirst(CrashProgram())
  {
  }

  /** It holds of every invocation, however it ends. */
  lemma SpawnBeforeStarted(d: Durable, s: U64, script: seq<Outcome>)
    ensures SpawnsFirst(Invoke(d, s, script).trace)
  {
    hide Execute, CleanProgram, CrashProgram;
    var body := Execute(d, s, Program(s), script);
    ProgramsSpawnFirst(s);
    TraceIsPrefix(d, s, Program(s), script);
    TraceIsPrefix(body.d, s, SUCCESS_PROGRAM, body.rest);
    TraceIsPrefix(body.d, s, FAILURE_PROGRAM, body.rest);
  }

  // --------------------------------------------------------------- witnesses --

  /** Steps that all succeed. */
  const DONE := Outcome(Full, Renamed.Done, 0, Ok)

  function Smoothly(n: nat): (script: seq<Outcome>)
    ensures |script| == n && forall i | 0 <= i < n :: script[i] == DONE
  {
    seq(n, _ => DONE)
  }

  lemma {:induction false} SmoothWorks(todo: seq<Action>, tail: seq<Outcome>)
    ensures Works(todo, Smoothly(|todo|) + tail)
    decreases |todo|
  {
    var script := Smoothly(|todo|) + tail;
    if todo != [] {
      SmoothWorks(todo[1..], tail);
      assert script[1..] == Smoothly(|todo| - 1) + tail;
    }
  }

  lemma {:induction false} SmoothFinishes(d: Durable, s: U64, todo: seq<Action>, tail: seq<Outcome>)
    requires forall a | a in todo :: BodyAction(a)
    ensures var r := Execute(d, s, todo, Smoothly(|todo|) + tail);
      r.end.Finished? && r.rest == tail && (r.spawned <==> exists a :: a in todo && a.Spawn?)
    decreases |todo|
  {
    hide Perform;
    var script := Smoothly(|todo|) + tail;
    if todo == [] {
      assert script == tail;
    } else {
      assert todo == [todo[0]] + todo[1..] && BodyAction(todo[0]);
      SmoothFinishes(Perform(d, s, todo[0], script[0]), s, todo[1..], tail);
      assert script[1..] == Smoothly(|todo| - 1) + tail;
    }
  }

  lemma FreshStoreSelectsOne(campaign: string)
    ensures var d := EmptyStore(campaign);
      Ours(d) && Selects(BagOf(d), 1) && !Unfinished(d.log)
  {
    EmptyBag();
    var d := EmptyStore(campaign);
    assert BagOf(d) == multiset{};
  }

  /** The controller dies right after the singleton. */
  function Wedging(): seq<Outcome> { Smoothly(|Program(1)|) + [DONE] }

  /** Dying between the final writes is reachable: the first invocation of a fresh campaign can do it, and then no
      later invocation continues the campaign. */
  lemma FirstInvocationCanWedge(campaign: string, more: seq<Invocation>, st: ResumeStatus)
    requires StatusOf(BagOf(Run(campaign, [Invocation(1, Wedging())]).d), st)
    ensures st == Inconsistent(0, Some(1), SingletonWithoutSuccess)
    ensures Run(campaign, [Invocation(1, Wedging())] + more) == Run(campaign, [Invocation(1, Wedging())])
  {
    hide BagOf, StatusOf, Selects, Works, Execute, Smoothly, Program;
    var d := EmptyStore(campaign);
    FreshStoreSelectsOne(campaign);
    SmoothWorks(Program(1), [DONE]);
    ProgramShape(1);
    SmoothFinishes(d, 1, Program(1), [DONE]);
    OneInvocation(campaign, Wedging());
    DyingBetweenFinalWrites(d, 1, Wedging(), st);
    NotReadyIsFinal(campaign, [Invocation(1, Wedging())], more, st);
  }

  /** The newline of the terminal event is lost, and the controller dies with it. */
  const NEWLINE_LOST := Outcome(AllButNewline, Renamed.Done, 0, Die)

  function Losing(): seq<Outcome> { Smoothly(|Program(1)|) + [DONE, NEWLINE_LOST] }

  lemma LosingEnding(d: Durable, s: U64)
    requires s >= 1 && Ours(d) && !Unfinished(d.log) && !Rejected(BagOf(d)) && OnlyLifecycle(Tally(BagOf(d), s))
    ensures var r := Execute(d, s, SUCCESS_PROGRAM, [DONE, NEWLINE_LOST]);
      !Rejected(BagOf(r.d)) && Complete(Tally(BagOf(r.d), s)) && Unfinished(r.d.log)
  {
    hide BagOf, Rejected, Perform, PutEntry;
    PutWorks(d, s, PutSingleton, DONE);
    var after := Perform(d, s, PutSingleton, DONE);
    var record := Record(Phase.TerminalSuccess);
    var last := Perform(after, s, record, NEWLINE_LOST);
    LosesNewline(after, s);
    NoteStep(BagOf(after), EventNote(s, EventKind.Success));
    assert SUCCESS_PROGRAM[1..] == [record] && [DONE, NEWLINE_LOST][1..] == [NEWLINE_LOST];
    assert Execute(after, s, [record], [NEWLINE_LOST]).d == last;
    ShapeAfterSuccess(BagOf(d), BagOf(last), s);
  }

  lemma LosesNewline(d: Durable, s: U64)
    requires s >= 1 && !Unfinished(d.log)
    ensures var e := Perform(d, s, Record(Phase.TerminalSuccess), NEWLINE_LOST);
      BagOf(e) == BagOf(d) + multiset{EventNote(s, EventKind.Success)} && Unfinished(e.log)
  {
    hide BagOf;
    AppendEffect(d, s, Phase.TerminalSuccess, AllButNewline);
  }

  /** The invocation after a lost newline, once it has spawned a child, has made the evidence unreadable for good. */
  lemma PoisonedForGood(d: Durable, s: U64, script: seq<Outcome>)
    requires s >= 1 && Ours(d) && Unfinished(d.log) && Execute(d, s, Program(s), script).spawned
    ensures Rejected(BagOf(Invoke(d, s, script).d))
  {
    hide BagOf, Rejected, Execute, Within;
    ProgramShape(s);
    var body := Execute(d, s, Program(s), script);
    LostNewlinePoisons(d, s, Program(s), script, NotesFor(s));
    ExecuteWithin(d, s, Program(s), script, NotesFor(s));
    ExecuteWithin(body.d, s, SUCCESS_PROGRAM, body.rest, NotesFor(s));
    ExecuteWithin(body.d, s, FAILURE_PROGRAM, body.rest, NotesFor(s));
  }

  /** A lost newline is reachable too: the first invocation of a fresh campaign leaves it, sequence 2 is selected, and
      a second invocation in which nothing else goes wrong makes the evidence unreadable. */
  lemma SecondInvocationPoisons(campaign: string)
    ensures var d := Run(campaign, [Invocation(1, Losing())]).d;
      && Unfinished(d.log) && Selects(BagOf(d), 2)
      && Rejected(BagOf(Run(campaign, [Invocation(1, Losing()), Invocation(2, Smoothly(|Program(2)|))]).d))
  {
    hide BagOf, Selects, Works, Execute, Smoothly, Rejected, Complete, Program;
    var e := EmptyStore(campaign);
    FreshStoreSelectsOne(campaign);
    SelectsReadable(BagOf(e), 1);
    SelectedTally(BagOf(e), 1, 1);
    ProgramShape(1);
    SmoothWorks(Program(1), [DONE, NEWLINE_LOST]);
    SmoothFinishes(e, 1, Program(1), [DONE, NEWLINE_LOST]);
    ExecuteWorks(e, 1, Program(1), Losing());
    ExecuteWithin(e, 1, Program(1), Losing(), {EventNote(1, Lifecycle)});
    var body := Execute(e, 1, Program(1), Losing());
    LifecycleOnly(BagOf(e), BagOf(body.d), 1);
    LosingEnding(body.d, 1);
    OneInvocation(campaign, Losing());
    var d := Invoke(e, 1, Losing()).d;
    assert d == Execute(body.d, 1, SUCCESS_PROGRAM, [DONE, NEWLINE_LOST]).d;
    CompleteSelectsNext(e, 1, Losing());
    InvokeEffect(e, 1, Losing());
    SmoothSpawns(d, 2);
    PoisonedForGood(d, 2, Smoothly(|Program(2)|));
    TwoInvocations(campaign, Invocation(1, Losing()), Invocation(2, Smoothly(|Program(2)|)));
  }

  lemma SmoothSpawns(d: Durable, s: U64)
    ensures Execute(d, s, Program(s), Smoothly(|Program(s)|)).spawned
  {
    hide Execute, Smoothly;
    ProgramShape(s);
    SmoothFinishes(d, s, Program(s), []);
    assert Smoothly(|Program(s)|) + [] == Smoothly(|Program(s)|);
    assert Program(s)[3] == Spawn(Workload);
    assert Spawn(Workload) in Program(s);
  }

  lemma TwoInvocations(campaign: string, first: Invocation, second: Invocation)
    ensures Run(campaign, [first, second]) == Step(Run(campaign, [first]), second)
  {
    hide Step;
    var two := [first, second];
    assert two[..|two| - 1] == [first];
  }

  lemma OneInvocation(campaign: string, script: seq<Outcome>)
    ensures Run(campaign, [Invocation(1, script)]).d == Invoke(EmptyStore(campaign), 1, script).d
  {
    hide Invoke, Selects, BagOf;
    FreshStoreSelectsOne(campaign);
    var one := [Invocation(1, script)];
    assert one[..|one| - 1] == [];
    assert Run(campaign, []) == State(EmptyStore(campaign), []);
  }

  // -------------------------------------------------------------- the store --

  /** Spawns and checks leave nothing durable, and are seen as they are. */
  lemma Silent(d: Durable, s: U64, a: Action, o: Outcome)
    ensures a.Spawn? || a.Require? ==> Perform(d, s, a, o) == d && Seen(d, s, a, o) == o.fate
  {
  }

  /** A result whose program had already got somewhere. */
  function Resumed(r: Result, spawned: bool, trace: seq<Action>): Result {
    r.(spawned := spawned || r.spawned, trace := trace + r.trace)
  }

  lemma ResumedStep(d: Durable, s: U64, todo: seq<Action>, script: seq<Outcome>, spawned: bool, trace: seq<Action>)
    requires todo != [] && script != []
    ensures var a, o := todo[0], script[0];
      var after, seen := Perform(d, s, a, o), Seen(d, s, a, o);
      Resumed(Execute(d, s, todo, script), spawned, trace) ==
        if seen.Die? then Result(after, spawned || a.Spawn?, Died, script[1..], trace + [a])
        else if seen.Error? then Result(after, spawned, Erred, script[1..], trace + [a])
        else Resumed(Execute(after, s, todo[1..], script[1..]), spawned || a.Spawn?, trace + [a])
  {
    hide Perform, Seen;
    var tail := Execute(Perform(d, s, todo[0], script[0]), s, todo[1..], script[1..]);
    assert trace + ([todo[0]] + tail.trace) == (trace + [todo[0]]) + tail.trace;
  }

  lemma ResumedEnd(d: Durable, s: U64, script: seq<Outcome>, spawned: bool, trace: seq<Action>)
    ensures Resumed(Execute(d, s, [], script), spawned, trace) == Result(d, spawned, Finished, script, trace)
    ensures forall todo | todo != [] :: Resumed(Execute(d, s, todo, []), spawned, trace) == Result(d, spawned, Died, [], trace)
    ensures forall r: Result :: Resumed(r, false, []) == r
  {
    forall r: Result ensures Resumed(r, false, []) == r { assert [] + r.trace == r.trace; }
  }

  /** `EvidenceStore` and the control flow over it. */
  class Store {
    var d: Durable

    constructor (campaign: string)
      ensures d == EmptyStore(campaign)
    {
      d := EmptyStore(campaign);
    }

    method RecordEvent(s: U64, phase: Phase, o: Outcome) returns (seen: Fate)
      modifies this
      ensures d == Perform(old(d), s, Record(phase), o) && seen == Seen(old(d), s, Record(phase), o)
    {
      var record := EventRecord(EVENT_SCHEMA, SCHEMA_VERSION, d.campaign, s, PhaseText(phase));
      d := d.(log := AppendRecord(d.log, record, if o.fate.Ok? then Full else o.written));
      seen := o.fate;
    }

    method WriteSuccess(s: U64, o: Outcome) returns (seen: Fate)
      modifies this
      ensures d == Perform(old(d), s, PutSingleton, o) && seen == Seen(old(d), s, PutSingleton, o)
    {
      if SingletonExists(d, s) {
        return if o.fate.Ok? then Error else o.fate;
      }
      d := d.(iterations := PutEntry(d.iterations, IterationName(s), SingletonFor(d.campaign, s), if o.fate.Ok? then Done else o.renamed));
      seen := o.fate;
    }

    method WriteFailure(s: U64, o: Outcome) returns (seen: Fate)
      modifies this
      ensures d == Perform(old(d), s, PutFailure, o) && seen == Seen(old(d), s, PutFailure, o)
    {
      d := d.(failures := PutEntry(d.failures, FailureName(s, o.timestamp), FailureFor(d.campaign, s), if o.fate.Ok? then Done else o.renamed));
      seen := o.fate;
    }

    /** Takes the program's steps one by one until one fails, or the controller dies. */
    method Steps(s: U64, program: seq<Action>, script: seq<Outcome>) returns (r: Result)
      modifies this
      ensures r == Execute(old(d), s, program, script) && d == r.d
    {
      hide Execute, Perform, Seen, Resumed;
      var todo, rest, spawned, trace: seq<Action> := program, script, false, [];
      ResumedEnd(d, s, script, false, []);
      while todo != []
        invariant Execute(old(d), s, program, script) == Resumed(Execute(d, s, todo, rest), spawned, trace)
        decreases |todo|
      {
        ResumedEnd(d, s, [], spawned, trace);
        if rest == [] { return Result(d, spawned, Died, [], trace); }
        var a, o := todo[0], rest[0];
        ghost var before := d;
        var seen := o.fate;
        match a {
          case Record(phase) => seen := RecordEvent(s, phase, o);
          case PutSingleton => seen := WriteSuccess(s, o);
          case PutFailure => seen := WriteFailure(s, o);
          case _ =>
        }
        assert d == Perform(before, s, a, o) && seen == Seen(before, s, a, o) by { Silent(before, s, a, o); }
        ResumedStep(before, s, todo, rest, spawned, trace);
        if seen.Die? { return Result(d, spawned || a.Spawn?, Died, rest[1..], trace + [a]); }
        if seen.Error? { return Result(d, spawned, Erred, rest[1..], trace + [a]); }
        spawned := spawned || a.Spawn?;
        todo, rest, trace := todo[1..], rest[1..], trace + [a];
      }
      ResumedEnd(d, s, rest, spawned, trace);
      return Result(d, spawned, Finished, rest, trace);
    }

    /** `finalize_success`: the singleton, then its terminal event. */
    method FinalizeSuccess(s: U64, script: seq<Outcome>) returns (r: Result)
      modifies this
      ensures r == Execute(old(d), s, SUCCESS_PROGRAM, script) && d == r.d
    {
      r := Steps(s, SUCCESS_PROGRAM, script);
    }

    /** `finalize_failure`: the artifact, then its terminal event. */
    method FinalizeFailure(s: U64, script: seq<Outcome>) returns (r: Result)
      modifies this
      ensures r == Execute(old(d), s, FAILURE_PROGRAM, script) && d == r.d
    {
      r := Steps(s, FAILURE_PROGRAM, script);
    }

    /** `execute_sampled_recorded_iteration`. */
    method ExecuteIteration(s: U64, script: seq<Outcome>) returns (r: Result)
      modifies this
      ensures r == Invoke(old(d), s, script) && d == r.d
    {
      r := Steps(s, Program(s), script);
      match r.end {
        case Died =>
        case Finished =>
          var ending := FinalizeSuccess(s, r.rest);
          r := ending.(spawned := r.spawned, trace := r.trace + ending.trace);
        case Erred =>
          var ending := FinalizeFailure(s, r.rest);
          r := ending.(spawned := r.spawned, end := Erred, trace := r.trace + ending.trace);
      }
    }

    /** `execute_next_sampled_recorded_iteration`: reconcile, then run the selected sequence if there is one. */
    method ExecuteNext(script: seq<Outcome>) returns (before: ResumeStatus, r: Option<Result>)
      modifies this
      ensures StatusOf(BagOf(old(d)), before)
      ensures r.Some? <==> before.state == Ready
      ensures r.None? ==> d == old(d)
      ensures r.Some? ==>
        && before.next.Some? && 1 <= before.next.value <= U64_MAX && Selects(BagOf(old(d)), before.next.value)
        && r.value == Invoke(old(d), before.next.value, script) && d == r.value.d
    {
      before := ReconcileResumeStatus(d);
      if before.state != Ready { return before, None; }
      ReadyHasNext(d, before);
      var result := ExecuteIteration(before.next.value, script);
      return before, Some(result);
    }
  }

  lemma ReadyHasNext(d: Durable, st: ResumeStatus)
    requires StatusOf(BagOf(d), st) && st.state == Ready
    ensures st.next.Some? && 1 <= st.next.value <= U64_MAX && st == ReadyAt(st.frontier) && Selects(BagOf(d), st.next.value)
  {
    hide BagOf, Rejected, EvidenceOf;
    if !Rejected(BagOf(d)) { SelectionExactly(d, st, st.frontier + 1); }
  }
}
