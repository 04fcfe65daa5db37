/** Reconciling one campaign's durable evidence into a resume decision (endurance/resume.rs). */
module Resume {
  import opened Decimal

  /** What the scans know about one sequence. */
  datatype SequenceEvidence = SequenceEvidence(
    lifecycle: nat, successes: nat, failures: nat, singleton: bool, failureFiles: nat)

  const NoEvidence := SequenceEvidence(0, 0, 0, false, 0)

  type EvidenceMap = map<nat, SequenceEvidence>

  datatype ResumeState = Ready | BlockedFailure | BlockedIncomplete | BlockedInconsistent

  datatype Reason =
    | ScanRejected | Gap(higher: nat) | DuplicateTerminal | Conflict | SuccessWithoutSingleton
    | SingletonWithoutSuccess | FailedBelow(higher: nat) | TerminalFailure | Overflow
    | IncompleteBelow(higher: nat) | NonterminalLifecycle | Unclassified

  datatype ResumeStatus = ResumeStatus(
    state: ResumeState, frontier: nat, next: Option<nat>, blocked: Option<nat>, reason: Option<Reason>)

  function ReadyAt(frontier: nat): ResumeStatus {
    ResumeStatus(Ready, frontier, Some(frontier + 1), None, None)
  }

  function Blocked(state: ResumeState, frontier: nat, sequence: nat, reason: Reason): ResumeStatus {
    ResumeStatus(state, frontier, None, Some(sequence), Some(reason))
  }

  function Inconsistent(frontier: nat, sequence: Option<nat>, reason: Reason): ResumeStatus {
    ResumeStatus(BlockedInconsistent, frontier, None, sequence, Some(reason))
  }

  /** One terminal success event, its singleton, and no trace of failure. */
  predicate Complete(e: SequenceEvidence) {
    e.successes == 1 && e.singleton && e.failures == 0 && e.failureFiles == 0
  }

  /** A terminal failure outcome and no trace of success. */
  predicate Failed(e: SequenceEvidence) {
    e.successes == 0 && !e.singleton && e.failures <= 1 && (e.failures == 1 || e.failureFiles > 0)
  }

  /** Lifecycle events only: started, never finished. */
  predicate Incomplete(e: SequenceEvidence) {
    e.successes == 0 && !e.singleton && e.failures == 0 && e.failureFiles == 0 && e.lifecycle > 0
  }

  ghost predicate CompleteAt(ev: EvidenceMap, k: nat) { k in ev && Complete(ev[k]) }

  ghost predicate CompleteThrough(ev: EvidenceMap, f: nat) {
    forall k | 1 <= k <= f :: CompleteAt(ev, k)
  }

  /** What the scans can leave behind: u64 sequences other than zero, each with some evidence. */
  ghost predicate Scanned(ev: EvidenceMap) {
    forall k | k in ev :: 1 <= k <= U64_MAX
      && (ev[k].lifecycle > 0 || ev[k].singleton || ev[k].failureFiles > 0)
      && ev[k].lifecycle >= ev[k].successes + ev[k].failures
  }

  ghost predicate NothingAbove(ev: EvidenceMap, s: nat) { forall k | k in ev :: k <= s }

  /** Every sequence in the evidence is one of 1..f. */
  ghost predicate Exactly(ev: EvidenceMap, f: nat) { CompleteThrough(ev, f) && NothingAbove(ev, f) }

  /** Only sequence f + 1 deviates from "1..f complete and nothing else". */
  ghost predicate OnlyNextDeviates(ev: EvidenceMap, f: nat) {
    CompleteThrough(ev, f) && f + 1 in ev && NothingAbove(ev, f + 1)
  }

  /** `evidence.range((Excluded(s), Unbounded)).next()`: the least sequence above s. */
  method NextHigher(ev: EvidenceMap, s: nat) returns (higher: Option<nat>)
    ensures higher.None? <==> NothingAbove(ev, s)
    ensures higher.Some? ==> LeastAbove(ev, s, higher.value)
  {
    higher := None;
    var todo := ev.Keys;
    while todo != {}
      invariant todo <= ev.Keys
      invariant higher.None? ==> forall k | k in ev && k !in todo :: k <= s
      invariant higher.Some? ==> higher.value in ev && higher.value > s
                                 && forall k | k in ev && k !in todo && k > s :: higher.value <= k
    {
      var k :| k in todo;
      if k > s && (higher.None? || k < higher.value) { higher := Some(k); }
      todo := todo - {k};
    }
  }

  /** The decision, with no loop in it: the status and its numbers for one evidence map. */
  ghost predicate Decision(ev: EvidenceMap, st: ResumeStatus) {
    var f := st.frontier;
    CompleteThrough(ev, f) && f <= U64_MAX &&
    match st.state
    case Ready => f < U64_MAX && NothingAbove(ev, f) && st == ReadyAt(f)
    case BlockedFailure =>
      f < U64_MAX && OnlyNextDeviates(ev, f) && Failed(ev[f + 1]) && st == Blocked(BlockedFailure, f, f + 1, TerminalFailure)
    case BlockedIncomplete =>
      f < U64_MAX && OnlyNextDeviates(ev, f) && Incomplete(ev[f + 1])
      && st == Blocked(BlockedIncomplete, f, f + 1, NonterminalLifecycle)
    case BlockedInconsistent =>
      st.next == None && st.reason.Some? &&
      if f == U64_MAX then st == Inconsistent(f, Some(f), Overflow)
      else
        && st.blocked == Some(f + 1)
        && !CompleteAt(ev, f + 1)
        && (NothingAbove(ev, f + 1) ==> f + 1 in ev && !Failed(ev[f + 1]) && !Incomplete(ev[f + 1]))
        && ReasonHolds(ev, f + 1, st.reason.value)
  }

  ghost predicate LeastAbove(ev: EvidenceMap, s: nat, higher: nat) {
    higher in ev && higher > s && forall k | k in ev && k > s :: higher <= k
  }

  /** The stated reason for an inconsistency is true of the evidence at sequence s. */
  ghost predicate ReasonHolds(ev: EvidenceMap, s: nat, reason: Reason) {
    if s !in ev then reason.Gap? && LeastAbove(ev, s, reason.higher)
    else
      var e := ev[s];
      match reason
      case DuplicateTerminal => e.successes > 1 || e.failures > 1
      case Conflict => (e.successes == 1 || e.singleton) && (e.failures == 1 || e.failureFiles > 0)
      case SuccessWithoutSingleton => e.successes == 1 && !e.singleton && e.failures == 0 && e.failureFiles == 0
      case SingletonWithoutSuccess => e.successes == 0 && e.singleton && e.failures == 0 && e.failureFiles == 0
      case FailedBelow(higher) => Failed(e) && LeastAbove(ev, s, higher)
      case IncompleteBelow(higher) => Incomplete(e) && LeastAbove(ev, s, higher)
      case Unclassified => e == NoEvidence
      case _ => false
  }

  /** `reconcile_sequences`. */
  method ReconcileSequences(ev: EvidenceMap) returns (st: ResumeStatus)
    requires forall k | k in ev :: k <= U64_MAX
    ensures Decision(ev, st)
  {
    var frontier, sequence := 0, 1;
    while true
      invariant 1 <= sequence <= U64_MAX && frontier == sequence - 1
      invariant CompleteThrough(ev, frontier)
      decreases U64_MAX - sequence
    {
      var higher := NextHigher(ev, sequence);
      if sequence !in ev {
        if higher.Some? { return Inconsistent(frontier, Some(sequence), Gap(higher.value)); }
        return ReadyAt(frontier);
      }
      var current := ev[sequence];
      if current.successes > 1 || current.failures > 1 {
        return Inconsistent(frontier, Some(sequence), DuplicateTerminal);
      }
      var hasSuccess := current.successes == 1 || current.singleton;
      var hasFailure := current.failures == 1 || current.failureFiles > 0;
      if hasSuccess && hasFailure {
        return Inconsistent(frontier, Some(sequence), Conflict);
      }
      if current.successes == 1 && !current.singleton {
        return Inconsistent(frontier, Some(sequence), SuccessWithoutSingleton);
      }
      if current.singleton && current.successes != 1 {
        return Inconsistent(frontier, Some(sequence), SingletonWithoutSuccess);
      }
      if hasFailure {
        if higher.Some? { return Inconsistent(frontier, Some(sequence), FailedBelow(higher.value)); }
        return Blocked(BlockedFailure, frontier, sequence, TerminalFailure);
      }
      if current.singleton && current.successes == 1 {
        frontier := sequence;
        if sequence == U64_MAX {
          return Inconsistent(frontier, Some(sequence), Overflow);
        }
        sequence := sequence + 1;
        continue;
      }
      if current.lifecycle > 0 {
        if higher.Some? { return Inconsistent(frontier, Some(sequence), IncompleteBelow(higher.value)); }
        return Blocked(BlockedIncomplete, frontier, sequence, NonterminalLifecycle);
      }
      return Inconsistent(frontier, Some(sequence), Unclassified);
    }
  }

  // ------------------------------------------- what the decision amounts to --

  /** Two correct decisions agree on everything a caller acts on. */
  lemma DecisionDetermined(ev: EvidenceMap, a: ResumeStatus, b: ResumeStatus)
    requires Decision(ev, a) && Decision(ev, b)
    ensures a.state == b.state && a.frontier == b.frontier && a.next == b.next && a.blocked == b.blocked
  {
    FrontierMaximal(ev, a, b.frontier);
    FrontierMaximal(ev, b, a.frontier);
  }

  /** The frontier is the longest complete prefix. */
  lemma FrontierMaximal(ev: EvidenceMap, st: ResumeStatus, f: nat)
    requires Decision(ev, st) && CompleteThrough(ev, f) && f <= U64_MAX
    ensures f <= st.frontier
  {
    var k := st.frontier + 1;
    assert k <= f ==> CompleteAt(ev, k);
  }

  /** Ready at f is answered exactly when the sequences present are 1..f, each of them complete. */
  lemma ReadyExactly(ev: EvidenceMap, st: ResumeStatus, f: nat)
    requires Scanned(ev) && Decision(ev, st)
    ensures st.state == Ready && st.frontier == f <==> f < U64_MAX && Exactly(ev, f)
    ensures st.state == Ready ==> st.next == Some(st.frontier + 1) && st.frontier + 1 !in ev
  {
    if f < U64_MAX && Exactly(ev, f) { DecisionDetermined(ev, st, ReadyAt(f)); }
  }

  /** Blocked by failure at f + 1 exactly when f + 1 alone deviates, and only by failing. */
  lemma BlockedFailureExactly(ev: EvidenceMap, st: ResumeStatus, f: nat)
    requires Scanned(ev) && Decision(ev, st)
    ensures st.state == BlockedFailure && st.frontier == f <==> f < U64_MAX && OnlyNextDeviates(ev, f) && Failed(ev[f + 1])
  {
    if f < U64_MAX && OnlyNextDeviates(ev, f) && Failed(ev[f + 1]) {
      DecisionDetermined(ev, st, Blocked(BlockedFailure, f, f + 1, TerminalFailure));
    }
  }

  /** Blocked as incomplete at f + 1 exactly when f + 1 alone deviates, and only by not finishing. */
  lemma BlockedIncompleteExactly(ev: EvidenceMap, st: ResumeStatus, f: nat)
    requires Scanned(ev) && Decision(ev, st)
    ensures st.state == BlockedIncomplete && st.frontier == f <==> f < U64_MAX && OnlyNextDeviates(ev, f) && Incomplete(ev[f + 1])
  {
    if f < U64_MAX && OnlyNextDeviates(ev, f) && Incomplete(ev[f + 1]) {
      DecisionDetermined(ev, st, Blocked(BlockedIncomplete, f, f + 1, NonterminalLifecycle));
    }
  }

  /** On anything the scans can produce the "unclassified" branch is dead. */
  lemma NeverUnclassified(ev: EvidenceMap, st: ResumeStatus)
    requires Scanned(ev) && Decision(ev, st)
    ensures st.reason != Some(Unclassified)
  {
  }
}
