/** Reconciling a finished campaign's evidence into counts and a verdict (endurance/summary.rs). */
module Summary {
  import opened Decimal
  import opened Planner
  import Resume
  import EvidenceScan

  /** The fields of one iteration singleton the summary reads. */
  datatype IterationRecord = IterationRecord(
    schema: string, schemaVersion: nat, campaignId: string, sequence: nat, terminal: string,
    resultSequence: nat, reader: string, importName: string, execution: Execution)

  datatype Execution =
    | CleanExecution(runSucceeded: bool, verificationSucceeded: bool)
    | CrashExecution(failure: string, crashSucceeded: bool, reaped: bool, signal: int, relaunchSucceeded: bool,
                     recoverySucceeded: bool, continuationSucceeded: bool, verificationSucceeded: bool, postCrashStatus: string)
    | OtherExecution

  datatype Counts = Counts(cursor: nat, paging: nat, clean: nat, beforeCommit: nat, afterCommit: nat)

  function FailureName(failure: Failure): string {
    match failure case Clean => "clean" case BeforeCommit => "before-commit" case AfterCommit => "after-commit"
  }

  predicate RecoveryRequired(status: string) {
    status == "STARTING" || status == "STARTED" || status == "STOPPING" || status == "UNKNOWN"
  }

  /** The record is what a run of the plan writes. */
  predicate Faithful(campaignId: string, s: nat, r: IterationRecord) {
    && r.resultSequence == s && r.reader == ReaderText(ReaderOf(s)) && r.importName == ImportName(campaignId, s)
    && match r.execution
       case CleanExecution(run, verification) => FailureOf(s).Clean? && run && verification
       case CrashExecution(failure, crash, reaped, signal, relaunch, recovery, continuation, verification, status) =>
         && !FailureOf(s).Clean? && failure == FailureName(FailureOf(s))
         && !crash && reaped && signal == 9 && !relaunch && recovery && continuation && verification
         && RecoveryRequired(status)
       case OtherExecution => false
  }

  /** What a singleton must be for the scan to go on at all: this campaign's success record of sequence s. */
  predicate Usable(campaignId: string, s: nat, r: IterationRecord) {
    && r.schema == EvidenceScan.ITERATION_SCHEMA && r.schemaVersion == EvidenceScan.SCHEMA_VERSION
    && r.campaignId == campaignId && r.sequence != 0 && r.sequence == s && r.terminal == "success"
    && PlanIteration(campaignId, s).Some?
  }

  ghost predicate UsableThrough(campaignId: string, records: map<nat, IterationRecord>, n: nat) {
    forall s | 1 <= s <= n :: s in records && Usable(campaignId, s, records[s])
  }

  /** Every way a record departs from what its plan writes, in the order the scan looks for them. */
  datatype Deviation =
    | ResultSequence | UnsupportedReader | ReaderOffPlan | ImportNameOffPlan
    | CleanInCrashSlot | CleanRunFailed | CleanVerificationFailed
    | CrashOffPlan | CrashInCleanSlot | CrashSucceeded | NotReaped | NotKilled | RelaunchSucceeded | RecoveryFailed
    | ContinuationFailed | CrashVerificationFailed | StatusNotRecoverable
    | UnsupportedKind

  function Rank(d: Deviation): nat {
    match d
    case ResultSequence => 0 case UnsupportedReader => 1 case ReaderOffPlan => 2 case ImportNameOffPlan => 3
    case CleanInCrashSlot => 4 case CleanRunFailed => 5 case CleanVerificationFailed => 6
    case CrashOffPlan => 7 case CrashInCleanSlot => 8 case CrashSucceeded => 9 case NotReaped => 10 case NotKilled => 11
    case RelaunchSucceeded => 12 case RecoveryFailed => 13 case ContinuationFailed => 14
    case CrashVerificationFailed => 15 case StatusNotRecoverable => 16
    case UnsupportedKind => 17
  }

  predicate SupportedReader(reader: string) { reader == "cursor" || reader == "paging" }

  /** The record departs from its plan in this way. */
  predicate Deviates(campaignId: string, s: nat, r: IterationRecord, d: Deviation) {
    var e := r.execution;
    match d
    case ResultSequence => r.resultSequence != s
    case UnsupportedReader => !SupportedReader(r.reader)
    case ReaderOffPlan => r.reader != ReaderText(ReaderOf(s))
    case ImportNameOffPlan => r.importName != ImportName(campaignId, s)
    case CleanInCrashSlot => e.CleanExecution? && !FailureOf(s).Clean?
    case CleanRunFailed => e.CleanExecution? && !e.runSucceeded
    case CleanVerificationFailed => e.CleanExecution? && !e.verificationSucceeded
    case CrashOffPlan => e.CrashExecution? && e.failure != FailureName(FailureOf(s))
    case CrashInCleanSlot => e.CrashExecution? && FailureOf(s).Clean?
    case CrashSucceeded => e.CrashExecution? && e.crashSucceeded
    case NotReaped => e.CrashExecution? && !e.reaped
    case NotKilled => e.CrashExecution? && e.signal != 9
    case RelaunchSucceeded => e.CrashExecution? && e.relaunchSucceeded
    case RecoveryFailed => e.CrashExecution? && !e.recoverySucceeded
    case ContinuationFailed => e.CrashExecution? && !e.continuationSucceeded
    case CrashVerificationFailed => e.CrashExecution? && !e.verificationSucceeded
    case StatusNotRecoverable => e.CrashExecution? && !RecoveryRequired(e.postCrashStatus)
    case UnsupportedKind => e.OtherExecution?
  }

  lemma FaithfulExactly(campaignId: string, s: nat, r: IterationRecord)
    ensures Faithful(campaignId, s, r) <==> forall d :: !Deviates(campaignId, s, r, d)
  {
    if Faithful(campaignId, s, r) {
      forall d ensures !Deviates(campaignId, s, r, d) { FaithfulDeviatesNowhere(campaignId, s, r, d); }
    } else if forall d :: !Deviates(campaignId, s, r, d) {
      WithoutDeviation(campaignId, s, r);
    }
  }

  lemma FaithfulDeviatesNowhere(campaignId: string, s: nat, r: IterationRecord, d: Deviation)
    requires Faithful(campaignId, s, r)
    ensures !Deviates(campaignId, s, r, d)
  {
    assert SupportedReader(ReaderText(ReaderOf(s)));
    hide ImportName, RecoveryRequired, ReaderOf, FailureOf, FailureName, ReaderText, SupportedReader;
  }

  lemma WithoutDeviation(campaignId: string, s: nat, r: IterationRecord)
    requires forall d :: !Deviates(campaignId, s, r, d)
    ensures Faithful(campaignId, s, r)
  {
    hide ImportName, RecoveryRequired, ReaderOf, FailureOf, FailureName, ReaderText, SupportedReader;
    assert !Deviates(campaignId, s, r, ResultSequence) && !Deviates(campaignId, s, r, ReaderOffPlan);
    assert !Deviates(campaignId, s, r, ImportNameOffPlan) && !Deviates(campaignId, s, r, UnsupportedKind);
    match r.execution {
      case CleanExecution(_, _) =>
        assert !Deviates(campaignId, s, r, CleanInCrashSlot) && !Deviates(campaignId, s, r, CleanRunFailed);
        assert !Deviates(campaignId, s, r, CleanVerificationFailed);
      case CrashExecution(_, _, _, _, _, _, _, _, _) =>
        assert !Deviates(campaignId, s, r, CrashOffPlan) && !Deviates(campaignId, s, r, CrashInCleanSlot);
        assert !Deviates(campaignId, s, r, CrashSucceeded) && !Deviates(campaignId, s, r, NotReaped);
        assert !Deviates(campaignId, s, r, NotKilled) && !Deviates(campaignId, s, r, RelaunchSucceeded);
        assert !Deviates(campaignId, s, r, RecoveryFailed) && !Deviates(campaignId, s, r, ContinuationFailed);
        assert !Deviates(campaignId, s, r, CrashVerificationFailed) && !Deviates(campaignId, s, r, StatusNotRecoverable);
      case OtherExecution =>
    }
  }

  ghost predicate Ascending(v: seq<Deviation>) { forall i, j | 0 <= i < j < |v| :: Rank(v[i]) < Rank(v[j]) }

  ghost predicate Below(v: seq<Deviation>, rank: nat) { forall d | d in v :: Rank(d) < rank }

  /** One push. */
  function Noted(v: seq<Deviation>, d: Deviation, when: bool): (r: seq<Deviation>)
    requires Ascending(v) && Below(v, Rank(d))
    ensures Ascending(r) && Below(r, Rank(d) + 1)
    ensures forall e :: e in r <==> e in v || (when && e == d)
  {
    if when then v + [d] else v
  }

  /** What is looked at whatever the kind of the execution. */
  method CommonViolations(campaignId: string, s: nat, r: IterationRecord) returns (v: seq<Deviation>)
    ensures Ascending(v) && Below(v, 4)
    ensures forall d :: d in v <==> Rank(d) < 4 && Deviates(campaignId, s, r, d)
  {
    v := [];
    assert Ascending(v) && Below(v, 0);
    hide Ascending, Below, ImportName, Noted, SupportedReader, ReaderText, ReaderOf;
    v := Noted(v, ResultSequence, r.resultSequence != s);
    v := Noted(v, UnsupportedReader, !SupportedReader(r.reader));
    v := Noted(v, ReaderOffPlan, r.reader != ReaderText(ReaderOf(s)));
    v := Noted(v, ImportNameOffPlan, r.importName != ImportName(campaignId, s));
  }

  method CleanViolations(campaignId: string, s: nat, r: IterationRecord, before: seq<Deviation>) returns (v: seq<Deviation>)
    requires r.execution.CleanExecution? && Ascending(before) && Below(before, 4)
    ensures Ascending(v)
    ensures forall d :: d in v <==> d in before || (4 <= Rank(d) && Deviates(campaignId, s, r, d))
  {
    hide Ascending, Below, Noted, FailureOf;
    var e := r.execution;
    v := Noted(before, CleanInCrashSlot, !FailureOf(s).Clean?);
    v := Noted(v, CleanRunFailed, !e.runSucceeded);
    v := Noted(v, CleanVerificationFailed, !e.verificationSucceeded);
  }

  method CrashViolations(campaignId: string, s: nat, r: IterationRecord, before: seq<Deviation>) returns (v: seq<Deviation>)
    requires r.execution.CrashExecution? && Ascending(before) && Below(before, 4)
    ensures Ascending(v)
    ensures forall d :: d in v <==> d in before || (4 <= Rank(d) && Deviates(campaignId, s, r, d))
  {
    v := KillViolations(campaignId, s, r, before);
    v := RestartViolations(campaignId, s, r, v);
    forall d { LastDeviations(campaignId, s, r, d); }
    assert Rank(CrashVerificationFailed) == 15 && Rank(StatusNotRecoverable) == 16;
    hide Ascending, Below, Noted, Deviates, Rank, RecoveryRequired;
    v := Noted(v, CrashVerificationFailed, !r.execution.verificationSucceeded);
    v := Noted(v, StatusNotRecoverable, !RecoveryRequired(r.execution.postCrashStatus));
  }

  lemma LastDeviations(campaignId: string, s: nat, r: IterationRecord, d: Deviation)
    requires r.execution.CrashExecution?
    ensures var e := r.execution;
      15 <= Rank(d) && Deviates(campaignId, s, r, d) <==>
        || (d == CrashVerificationFailed && !e.verificationSucceeded)
        || (d == StatusNotRecoverable && !RecoveryRequired(e.postCrashStatus))
  {
  }

  /** The relaunch, the recovery and the continuation. */
  method RestartViolations(campaignId: string, s: nat, r: IterationRecord, before: seq<Deviation>) returns (v: seq<Deviation>)
    requires r.execution.CrashExecution? && Ascending(before) && Below(before, 12)
    ensures Ascending(v) && Below(v, 15)
    ensures forall d :: d in v <==> d in before || (12 <= Rank(d) < 15 && Deviates(campaignId, s, r, d))
  {
    forall d { RestartDeviations(campaignId, s, r, d); }
    assert Rank(RelaunchSucceeded) == 12 && Rank(RecoveryFailed) == 13 && Rank(ContinuationFailed) == 14;
    hide Ascending, Below, Noted, Deviates, Rank;
    var e := r.execution;
    v := Noted(before, RelaunchSucceeded, e.relaunchSucceeded);
    v := Noted(v, RecoveryFailed, !e.recoverySucceeded);
    v := Noted(v, ContinuationFailed, !e.continuationSucceeded);
  }

  lemma RestartDeviations(campaignId: string, s: nat, r: IterationRecord, d: Deviation)
    requires r.execution.CrashExecution?
    ensures var e := r.execution;
      12 <= Rank(d) < 15 && Deviates(campaignId, s, r, d) <==>
        || (d == RelaunchSucceeded && e.relaunchSucceeded) || (d == RecoveryFailed && !e.recoverySucceeded)
        || (d == ContinuationFailed && !e.continuationSucceeded)
  {
  }

  /** The slot and the killed child. */
  method KillViolations(campaignId: string, s: nat, r: IterationRecord, before: seq<Deviation>) returns (v: seq<Deviation>)
    requires r.execution.CrashExecution? && Ascending(before) && Below(before, 4)
    ensures Ascending(v) && Below(v, 12)
    ensures forall d :: d in v <==> d in before || (4 <= Rank(d) < 12 && Deviates(campaignId, s, r, d))
  {
    assert Below(before, 7);
    forall d { KillDeviations(campaignId, s, r, d); }
    assert Rank(CrashOffPlan) == 7 && Rank(CrashInCleanSlot) == 8 && Rank(CrashSucceeded) == 9;
    assert Rank(NotReaped) == 10 && Rank(NotKilled) == 11;
    hide Ascending, Below, Noted, Deviates, Rank, FailureOf, FailureName;
    var e := r.execution;
    v := Noted(before, CrashOffPlan, e.failure != FailureName(FailureOf(s)));
    v := Noted(v, CrashInCleanSlot, FailureOf(s).Clean?);
    v := Noted(v, CrashSucceeded, e.crashSucceeded);
    v := Noted(v, NotReaped, !e.reaped);
    v := Noted(v, NotKilled, e.signal != 9);
  }

  lemma KillDeviations(campaignId: string, s: nat, r: IterationRecord, d: Deviation)
    requires r.execution.CrashExecution?
    ensures var e := r.execution;
      4 <= Rank(d) < 12 && Deviates(campaignId, s, r, d) <==>
        || (d == CrashOffPlan && e.failure != FailureName(FailureOf(s))) || (d == CrashInCleanSlot && FailureOf(s).Clean?)
        || (d == CrashSucceeded && e.crashSucceeded) || (d == NotReaped && !e.reaped) || (d == NotKilled && e.signal != 9)
  {
  }

  /** The violations one record adds: each way in which it departs from its plan, once, in the order looked for. */
  method Violations(campaignId: string, s: nat, r: IterationRecord) returns (v: seq<Deviation>)
    ensures Ascending(v)
    ensures forall d :: d in v <==> Deviates(campaignId, s, r, d)
    ensures v == [] <==> Faithful(campaignId, s, r)
  {
    FaithfulExactly(campaignId, s, r);
    v := CommonViolations(campaignId, s, r);
    hide Faithful;
    match r.execution {
      case CleanExecution(_, _) => v := CleanViolations(campaignId, s, r, v);
      case CrashExecution(_, _, _, _, _, _, _, _, _) => v := CrashViolations(campaignId, s, r, v);
      case OtherExecution => v := Noted(v, UnsupportedKind, true);
    }
    if v != [] { assert v[0] in v; }
  }

  /** Violations of several records: by sequence, then in the order looked for. */
  ghost predicate InOrder(v: seq<(nat, Deviation)>) {
    forall i, j | 0 <= i < j < |v| :: v[i].0 < v[j].0 || (v[i].0 == v[j].0 && Rank(v[i].1) < Rank(v[j].1))
  }

  ghost predicate Complete(campaignId: string, records: map<nat, IterationRecord>, n: nat, v: seq<(nat, Deviation)>)
    requires forall s | 1 <= s <= n :: s in records
  {
    forall s, d :: (s, d) in v <==> 1 <= s <= n && Deviates(campaignId, s, records[s], d)
  }

  /** One record's violations join those of the sequences before it. */
  lemma Joined(campaignId: string, records: map<nat, IterationRecord>, s: nat, v: seq<(nat, Deviation)>, found: seq<Deviation>)
    requires s > 0 && forall k | 1 <= k <= s :: k in records
    requires InOrder(v) && Complete(campaignId, records, s - 1, v)
    requires Ascending(found) && forall d :: d in found <==> Deviates(campaignId, s, records[s], d)
    ensures InOrder(v + At(s, found)) && Complete(campaignId, records, s, v + At(s, found))
  {
    hide Deviates;
    var all := v + At(s, found);
    forall i | 0 <= i < |v| ensures 1 <= v[i].0 < s {
      assert (v[i].0, v[i].1) in v;
    }
    forall k: nat, d ensures (k, d) in all <==> 1 <= k <= s && Deviates(campaignId, k, records[k], d) {
      if k == s { assert d in found <==> (s, d) in At(s, found); }
    }
  }

  function At(s: nat, found: seq<Deviation>): (v: seq<(nat, Deviation)>)
    ensures |v| == |found| && forall i | 0 <= i < |v| :: v[i] == (s, found[i])
  {
    seq(|found|, i requires 0 <= i < |found| => (s, found[i]))
  }

  /** The counts of the schedule alone, in closed form. */
  function Scheduled(n: nat): Counts {
    Counts((n + 1) / 2, n / 2, n - (n + 26) / 50 - (n + 1) / 50, (n + 26) / 50, (n + 1) / 50)
  }

  /** The counters after one more record. A crash is counted only in the slot its plan names. */
  function Tallied(c: Counts, s: nat, r: IterationRecord): Counts {
    var d := if r.reader == "cursor" then c.(cursor := c.cursor + 1)
             else if r.reader == "paging" then c.(paging := c.paging + 1) else c;
    match r.execution
    case CleanExecution(_, _) => d.(clean := d.clean + 1)
    case CrashExecution(failure, _, _, _, _, _, _, _, _) =>
      if failure == "before-commit" && FailureOf(s).BeforeCommit? then d.(beforeCommit := d.beforeCommit + 1)
      else if failure == "after-commit" && FailureOf(s).AfterCommit? then d.(afterCommit := d.afterCommit + 1)
      else d
    case OtherExecution => d
  }

  ghost function TalliedTo(records: map<nat, IterationRecord>, n: nat): Counts
    requires forall s | 1 <= s <= n :: s in records
  {
    if n == 0 then Counts(0, 0, 0, 0, 0) else Tallied(TalliedTo(records, n - 1), n, records[n])
  }

  ghost predicate AllFaithful(campaignId: string, records: map<nat, IterationRecord>, n: nat) {
    forall s | 1 <= s <= n :: s in records && Faithful(campaignId, s, records[s])
  }

  /** `scan_iterations`: None when a singleton is missing, does not parse or is not this campaign's. */
  method ScanIterations(campaignId: string, records: map<nat, IterationRecord>, frontier: nat)
    returns (out: Option<(Counts, seq<(nat, Deviation)>)>)
    ensures out.Some? <==> UsableThrough(campaignId, records, frontier)
    ensures out.Some? ==> out.value.0 == TalliedTo(records, frontier)
    ensures out.Some? ==> InOrder(out.value.1) && Complete(campaignId, records, frontier, out.value.1)
    ensures out.Some? ==> (out.value.1 == [] <==> AllFaithful(campaignId, records, frontier))
  {
    hide Faithful, Usable, Complete, InOrder, Deviates;
    var counts: Counts, violations: seq<(nat, Deviation)> := Counts(0, 0, 0, 0, 0), [];
    assert InOrder(violations) && Complete(campaignId, records, 0, violations) by { NoneYet(campaignId, records); }
    for i := 0 to frontier
      invariant UsableThrough(campaignId, records, i)
      invariant counts == TalliedTo(records, i)
      invariant InOrder(violations) && Complete(campaignId, records, i, violations)
      invariant violations == [] <==> AllFaithful(campaignId, records, i)
    {
      var s := i + 1;
      if s !in records { return None; }
      var r := records[s];
      if !Usable(campaignId, s, r) { return None; }
      var found := Violations(campaignId, s, r);
      assert AllFaithful(campaignId, records, s) <==> AllFaithful(campaignId, records, i) && found == [];
      Joined(campaignId, records, s, violations, found);
      violations := violations + At(s, found);
      if r.reader == "cursor" { counts := counts.(cursor := counts.cursor + 1); }
      else if r.reader == "paging" { counts := counts.(paging := counts.paging + 1); }
      match r.execution {
        case CleanExecution(_, _) => counts := counts.(clean := counts.clean + 1);
        case CrashExecution(failure, _, _, _, _, _, _, _, _) =>
          if failure == "before-commit" && FailureOf(s).BeforeCommit? {
            counts := counts.(beforeCommit := counts.beforeCommit + 1);
          } else if failure == "after-commit" && FailureOf(s).AfterCommit? {
            counts := counts.(afterCommit := counts.afterCommit + 1);
          }
        case OtherExecution =>
      }
    }
    return Some((counts, violations));
  }

  lemma NoneYet(campaignId: string, records: map<nat, IterationRecord>)
    ensures InOrder([]) && Complete(campaignId, records, 0, [])
  {
  }

  /** A faithful record moves the counters along the schedule. */
  lemma FaithfulStep(campaignId: string, s: nat, r: IterationRecord)
    requires s > 0 && Faithful(campaignId, s, r)
    ensures Tallied(Scheduled(s - 1), s, r) == Scheduled(s)
  {
    hide ImportName, RecoveryRequired;
    ReaderTexts();
    ScheduleStep(s - 1);
    CrashSlotReaders(s);
  }

  /** With no semantic violation the counts are the closed form of the schedule. */
  lemma {:induction false} CountsAreScheduled(campaignId: string, records: map<nat, IterationRecord>, n: nat)
    requires AllFaithful(campaignId, records, n)
    ensures TalliedTo(records, n) == Scheduled(n)
  {
    hide Faithful, Tallied, Scheduled;
    assert Scheduled(0) == Counts(0, 0, 0, 0, 0) by { ScheduleStart(); }
    if n > 0 {
      CountsAreScheduled(campaignId, records, n - 1);
      FaithfulStep(campaignId, n, records[n]);
    }
  }

  lemma ReaderTexts()
    ensures "cursor" != "paging" && FailureName(BeforeCommit) == "before-commit" && FailureName(AfterCommit) == "after-commit"
    ensures "before-commit" != "after-commit"
  {
    assert "cursor"[0] != "paging"[0];
    assert "before-commit"[0] != "after-commit"[0];
  }

  lemma ScheduleStart()
    ensures Scheduled(0) == Counts(0, 0, 0, 0, 0)
  {
    assert 26 / 50 == 0 && 1 / 50 == 0 && 1 / 2 == 0;
  }

  function Flag(hit: bool): nat { if hit then 1 else 0 }

  /** Steps of the quotients behind the closed form. */
  lemma HalfStep(n: nat)
    ensures (n + 2) / 2 == (n + 1) / 2 + Flag((n + 1) % 2 == 1) && (n + 1) / 2 == n / 2 + Flag((n + 1) % 2 == 0)
  {
  }

  lemma FiftyStep(n: nat)
    ensures (n + 1) / 50 == n / 50 + Flag((n + 1) % 50 == 0)
  {
  }

  /** One more iteration adds one to the counter its plan names. */
  lemma ScheduleStep(n: nat)
    ensures var c, d := Scheduled(n), Scheduled(n + 1);
      && d.cursor == c.cursor + Flag(ReaderOf(n + 1).Cursor?) && d.paging == c.paging + Flag(ReaderOf(n + 1).Paging?)
      && d.clean == c.clean + Flag(FailureOf(n + 1).Clean?)
      && d.beforeCommit == c.beforeCommit + Flag(FailureOf(n + 1).BeforeCommit?)
      && d.afterCommit == c.afterCommit + Flag(FailureOf(n + 1).AfterCommit?)
  {
    HalfStep(n);
    FiftyStep(n + 26);
    FiftyStep(n + 1);
    SlotResidues(n + 1);
  }

  /** The two residues, read as the slots of the schedule. */
  lemma SlotResidues(s: nat)
    ensures FailureOf(s).BeforeCommit? <==> (s + 26) % 50 == 0
    ensures FailureOf(s).AfterCommit? <==> (s + 1) % 50 == 0
  {
  }

  /** Crash slots have a fixed reader: before-commit crashes page, after-commit crashes use the cursor. */
  lemma CrashSlotReaders(s: nat)
    ensures FailureOf(s).BeforeCommit? ==> ReaderOf(s).Paging?
    ensures FailureOf(s).AfterCommit? ==> ReaderOf(s).Cursor?
  {
  }

  // -------------------------------------------------------- finalization --

  datatype ReasonCode =
    | ElapsedBelowMinimum | CompletedIterationsBelowMinimum | BeforeCommitCrashCountBelowMinimum
    | AfterCommitCrashCountBelowMinimum | EvidenceSemanticMismatch | UnexpectedTerminalFailureEvidence
    | DurableResumeNotReady | MissingDatabaseExecutionHistory | RecoveryRequiredExecutionsRemain | NoResourceSamples

  datatype Policy = Policy(minimumElapsed: nat, minimumIterations: nat, minimumBeforeCommit: nat, minimumAfterCommit: nat)

  /** The canonical acceptance policy: a day, a hundred iterations, two crashes of each kind. */
  const CANONICAL := Policy(24 * 60 * 60 * 1_000_000_000, 100, 2, 2)

  datatype Snapshot = Snapshot(
    createdAt: nat, status: Resume.ResumeStatus, executions: Counts, violations: nat,
    terminalSuccess: nat, terminalFailure: nat, failureArtifacts: nat, samples: nat)

  datatype Database = Database(missing: nat, recoveryRequired: nat)

  /** The condition behind each reason code. */
  predicate Holds(code: ReasonCode, s: Snapshot, p: Policy, now: nat, db: Database) {
    match code
    case ElapsedBelowMinimum => now - s.createdAt < p.minimumElapsed
    case CompletedIterationsBelowMinimum => s.status.frontier < p.minimumIterations
    case BeforeCommitCrashCountBelowMinimum => s.executions.beforeCommit < p.minimumBeforeCommit
    case AfterCommitCrashCountBelowMinimum => s.executions.afterCommit < p.minimumAfterCommit
    case EvidenceSemanticMismatch => s.violations > 0
    case UnexpectedTerminalFailureEvidence => s.terminalFailure > 0 || s.failureArtifacts > 0
    case DurableResumeNotReady => !s.status.state.Ready?
    case MissingDatabaseExecutionHistory => db.missing > 0
    case RecoveryRequiredExecutionsRemain => db.recoveryRequired > 0
    case NoResourceSamples => s.samples == 0
  }

  ghost predicate Distinct(codes: seq<ReasonCode>) {
    forall i, j | 0 <= i < j < |codes| :: codes[i] != codes[j]
  }

  ghost function AsSet(codes: seq<ReasonCode>): set<ReasonCode> { set c | c in codes }

  /** `push_reason`, when its condition holds. */
  function Push(codes: seq<ReasonCode>, code: ReasonCode, when: bool): (r: seq<ReasonCode>)
    requires Distinct(codes)
    ensures Distinct(r)
    ensures AsSet(r) == if when then AsSet(codes) + {code} else AsSet(codes)
  {
    if when && code !in codes then codes + [code] else codes
  }

  predicate IsFloor(code: ReasonCode) {
    || code.ElapsedBelowMinimum? || code.CompletedIterationsBelowMinimum?
    || code.BeforeCommitCrashCountBelowMinimum? || code.AfterCommitCrashCountBelowMinimum?
  }

  /** The first four checks: the policy's floors. */
  method PushFloors(s: Snapshot, p: Policy, now: nat, db: Database) returns (codes: seq<ReasonCode>)
    ensures Distinct(codes)
    ensures forall code :: code in AsSet(codes) <==> IsFloor(code) && Holds(code, s, p, now, db)
  {
    codes := [];
    assert Distinct(codes) && AsSet(codes) == {};
    hide Distinct, Push, AsSet;
    codes := Push(codes, ElapsedBelowMinimum, now - s.createdAt < p.minimumElapsed);
    codes := Push(codes, CompletedIterationsBelowMinimum, s.status.frontier < p.minimumIterations);
    codes := Push(codes, BeforeCommitCrashCountBelowMinimum, s.executions.beforeCommit < p.minimumBeforeCommit);
    codes := Push(codes, AfterCommitCrashCountBelowMinimum, s.executions.afterCommit < p.minimumAfterCommit);
  }

  predicate IsEvidence(code: ReasonCode) {
    code.EvidenceSemanticMismatch? || code.UnexpectedTerminalFailureEvidence? || code.DurableResumeNotReady?
  }

  /** The next three: what the durable evidence says. */
  method PushEvidence(reasons: seq<ReasonCode>, s: Snapshot, p: Policy, now: nat, db: Database) returns (codes: seq<ReasonCode>)
    requires Distinct(reasons)
    ensures Distinct(codes)
    ensures forall code :: code in AsSet(codes) <==> code in AsSet(reasons) || (IsEvidence(code) && Holds(code, s, p, now, db))
  {
    hide Distinct, Push, AsSet;
    codes := Push(reasons, EvidenceSemanticMismatch, s.violations > 0);
    codes := Push(codes, UnexpectedTerminalFailureEvidence, s.terminalFailure > 0 || s.failureArtifacts > 0);
    codes := Push(codes, DurableResumeNotReady, !s.status.state.Ready?);
  }

  /** `finalize_summary`: None when the policy's duration does not fit or the clock precedes the campaign. */
  method FinalizeSummary(s: Snapshot, p: Policy, now: nat, db: Database) returns (out: Option<(seq<ReasonCode>, bool)>)
    ensures out.None? <==> p.minimumElapsed > U64_MAX || now < s.createdAt
    ensures out.Some? ==> forall code :: code in AsSet(out.value.0) <==> Holds(code, s, p, now, db)
    ensures out.Some? ==> Distinct(out.value.0)
    ensures out.Some? ==> (out.value.1 <==> forall code :: !Holds(code, s, p, now, db))
  {
    if p.minimumElapsed > U64_MAX { return None; }
    if now < s.createdAt { return None; }
    hide Distinct, Push, AsSet;
    var reasons := PushFloors(s, p, now, db);
    reasons := PushEvidence(reasons, s, p, now, db);
    reasons := Push(reasons, MissingDatabaseExecutionHistory, db.missing > 0);
    reasons := Push(reasons, RecoveryRequiredExecutionsRemain, db.recoveryRequired > 0);
    reasons := Push(reasons, NoResourceSamples, s.samples == 0);
    EmptyExactly(reasons);
    return Some((reasons, reasons == []));
  }

  lemma EmptyExactly(codes: seq<ReasonCode>)
    ensures codes == [] <==> AsSet(codes) == {}
  {
    if codes != [] { assert codes[0] in AsSet(codes); }
  }

  /** Under the canonical policy a faithful campaign of a hundred iterations already has its crashes. */
  lemma CrashFloorsImplied(campaignId: string, records: map<nat, IterationRecord>, s: Snapshot, now: nat, db: Database)
    requires AllFaithful(campaignId, records, s.status.frontier) && s.executions == TalliedTo(records, s.status.frontier)
    requires !Holds(CompletedIterationsBelowMinimum, s, CANONICAL, now, db)
    ensures s.executions.beforeCommit >= 2 && s.executions.afterCommit >= 2
    ensures !Holds(BeforeCommitCrashCountBelowMinimum, s, CANONICAL, now, db)
    ensures !Holds(AfterCommitCrashCountBelowMinimum, s, CANONICAL, now, db)
  {
    hide AllFaithful, TalliedTo;
    CountsAreScheduled(campaignId, records, s.status.frontier);
  }
}
