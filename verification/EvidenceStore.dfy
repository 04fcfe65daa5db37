/** The durable evidence store and its writes, torn ones included (endurance/evidence.rs). */
module EvidenceStore {
  import opened Decimal
  import opened Resume
  import opened EvidenceScan

  /** The event log: its lines, and whether the last one still lacks its newline. */
  datatype Log = Log(lines: seq<Line>, open: bool)

  /** Everything a campaign keeps on disk, past its metadata. */
  datatype Durable = Durable(
    campaign: string, log: Log, iterations: seq<DirEntry<IterationRecord>>, failures: seq<DirEntry<FailureRecord>>)

  /** How much of one appended record reached the log. */
  datatype Written = Nothing | Part | AllButNewline | Full

  /** What an atomic write leaves behind. */
  datatype Renamed = Absent | TempLeft(pid: U64, timestamp: U64) | Done

  /** Whether the writer sees success, sees an error and carries on, or dies. */
  datatype Fate = Ok | Error | Die

  /** Any outcome of one durable step; a step that reports success has taken full effect. */
  datatype Outcome = Outcome(written: Written, renamed: Renamed, timestamp: U64, fate: Fate)

  function EmptyStore(campaign: string): Durable { Durable(campaign, Log([], false), [], []) }

  ghost function BagOf(d: Durable): Bag {
    multiset(OfLines(d.log.lines, d.campaign)) + multiset(OfIterations(d.iterations, d.campaign))
    + multiset(OfFailures(d.failures, d.campaign))
  }

  // ----------------------------------------------------------------- reading --

  /** The status a campaign's durable evidence stands for. */
  ghost predicate StatusOf(bag: Bag, st: ResumeStatus) {
    if Rejected(bag) then st == Inconsistent(0, None, ScanRejected) else Decision(EvidenceOf(bag), st)
  }

  /** `reconcile_resume_status`, past the campaign metadata checks. */
  method ReconcileResumeStatus(d: Durable) returns (st: ResumeStatus)
    ensures StatusOf(BagOf(d), st)
  {
    hide Rejected, EvidenceOf, Decision, OfLine, OfIteration, OfFailure;
    ghost var lines := multiset(OfLines(d.log.lines, d.campaign));
    ghost var iterations := multiset(OfIterations(d.iterations, d.campaign));
    ghost var failures := multiset(OfFailures(d.failures, d.campaign));
    EmptyBag();
    var ok, ev := ScanEvents(d.log.lines, d.campaign, map[], multiset{});
    assert multiset{} + lines == lines;
    if !ok {
      StillRejected(lines, iterations + failures);
      assert lines + (iterations + failures) == BagOf(d);
      return Inconsistent(0, None, ScanRejected);
    }
    ok, ev := ScanIterations(d.iterations, d.campaign, ev, lines);
    if !ok {
      StillRejected(lines + iterations, failures);
      return Inconsistent(0, None, ScanRejected);
    }
    ok, ev := ScanFailures(d.failures, d.campaign, ev, lines + iterations);
    if !ok { return Inconsistent(0, None, ScanRejected); }
    st := ReconcileSequences(ev);
  }

  lemma EmptyBag()
    ensures !Rejected(multiset{}) && EvidenceOf(multiset{}) == map[]
  {
  }

  lemma StillRejected(bag: Bag, extra: Bag)
    requires Rejected(bag)
    ensures Rejected(bag + extra)
  {
    RejectedGrows(bag, extra);
  }

  /** The evidence is readable exactly when every line and entry is one of the campaign's, no two singletons under one name. */
  lemma ReadableExactly(d: Durable)
    ensures !Rejected(BagOf(d)) <==>
      (&& (forall l | l in d.log.lines :: GoodLine(l, d.campaign))
       && (forall e | e in d.iterations :: GoodIteration(e, d.campaign))
       && (forall e | e in d.failures :: GoodFailure(e, d.campaign))
       && !NameRepeats(d.iterations))
  {
    var a, b, c := OfLines(d.log.lines, d.campaign), OfIterations(d.iterations, d.campaign), OfFailures(d.failures, d.campaign);
    NoneBad(d, a, b, c);
    assert Rejected(BagOf(d)) <==> BagOf(d)[Bad] > 0 || exists s :: BagOf(d)[Singleton(s)] > 1;
    hide *;
    if Bad !in a && Bad !in b && Bad !in c {
      forall s: U64 ensures BagOf(d)[Singleton(s)] == multiset(b)[Singleton(s)] { OnlyIterations(d, s); }
      RepeatedNames(d, b);
    }
  }

  ghost predicate NameRepeats(its: seq<DirEntry<IterationRecord>>) {
    exists i, j :: 0 <= i < j < |its| && its[i].name == its[j].name
  }

  ghost predicate NoteRepeats(b: seq<Note>) { exists i, j :: 0 <= i < j < |b| && b[i] == b[j] }

  lemma RepeatedNotes(b: seq<Note>)
    requires forall n | n in b :: n.Singleton?
    ensures (exists s: U64 :: multiset(b)[Singleton(s)] > 1) <==> NoteRepeats(b)
  {
    if NoteRepeats(b) {
      var i, j :| 0 <= i < j < |b| && b[i] == b[j];
      MetTwice(b, b[i]);
      assert b[i] in b && multiset(b)[Singleton(b[i].sequence)] > 1;
    } else {
      forall s: U64 ensures multiset(b)[Singleton(s)] <= 1 { MetTwice(b, Singleton(s)); }
    }
  }

  /** Two singletons of one sequence are two entries of one name. */
  lemma RepeatedNames(d: Durable, b: seq<Note>)
    requires b == OfIterations(d.iterations, d.campaign) && Bad !in b
    ensures (exists s: U64 :: multiset(b)[Singleton(s)] > 1) <==> NameRepeats(d.iterations)
  {
    forall i | 0 <= i < |b| ensures b[i] == OfIteration(d.iterations[i], d.campaign) && b[i].Singleton? {
      assert b[i] in b;
    }
    RepeatedNotes(b);
    hide OfIteration, OfIterations;
    forall i, j | 0 <= i < j < |b| ensures b[i] == b[j] <==> d.iterations[i].name == d.iterations[j].name {
      SameNameSameSequence(d, i, j);
    }
  }

  lemma NoneBad(d: Durable, a: seq<Note>, b: seq<Note>, c: seq<Note>)
    requires a == OfLines(d.log.lines, d.campaign) && b == OfIterations(d.iterations, d.campaign) && c == OfFailures(d.failures, d.campaign)
    ensures BagOf(d)[Bad] == 0 <==> Bad !in a && Bad !in b && Bad !in c
    ensures Bad !in a <==> forall l | l in d.log.lines :: GoodLine(l, d.campaign)
    ensures Bad !in b <==> forall e | e in d.iterations :: GoodIteration(e, d.campaign)
    ensures Bad !in c <==> forall e | e in d.failures :: GoodFailure(e, d.campaign)
  {
    forall l { LineAccepted(l, d.campaign); }
    forall e { IterationAccepted(e, d.campaign); }
    forall e { FailureAccepted(e, d.campaign); }
    hide OfLine, OfIteration, OfFailure, GoodLine, GoodIteration, GoodFailure;
    forall i | 0 <= i < |a| ensures a[i] == OfLine(d.log.lines[i], d.campaign) { }
    forall i | 0 <= i < |b| ensures b[i] == OfIteration(d.iterations[i], d.campaign) { }
    forall i | 0 <= i < |c| ensures c[i] == OfFailure(d.failures[i], d.campaign) { }
  }

  lemma OnlyIterations(d: Durable, s: U64)
    ensures BagOf(d)[Singleton(s)] == multiset(OfIterations(d.iterations, d.campaign))[Singleton(s)]
  {
    assert Singleton(s) !in OfLines(d.log.lines, d.campaign) && Singleton(s) !in OfFailures(d.failures, d.campaign);
  }

  lemma SameNameSameSequence(d: Durable, i: nat, j: nat)
    requires i < j < |d.iterations|
    requires !OfIteration(d.iterations[i], d.campaign).Bad? && !OfIteration(d.iterations[j], d.campaign).Bad?
    ensures OfIteration(d.iterations[i], d.campaign) == OfIteration(d.iterations[j], d.campaign) <==>
            d.iterations[i].name == d.iterations[j].name
  {
    IterationAccepted(d.iterations[i], d.campaign);
    IterationAccepted(d.iterations[j], d.campaign);
    var r, q := d.iterations[i].content.value, d.iterations[j].content.value;
    ParsePadded(r.sequence, 6);
    ParsePadded(q.sequence, 6);
    StripSuffixOf(Padded(r.sequence, 6), ".json");
    StripSuffixOf(Padded(q.sequence, 6), ".json");
    hide OfIteration, Padded, ParseU64;
  }

  function Without<T>(s: seq<T>, k: nat): (r: seq<T>)
    requires k < |s|
    ensures |r| == |s| - 1
  {
    s[..k] + s[k + 1..]
  }

  lemma WithoutBag<T>(s: seq<T>, k: nat)
    requires k < |s|
    ensures multiset(s) == multiset(Without(s, k)) + multiset{s[k]}
    ensures multiset(Without(s, k)) == multiset(s) - multiset{s[k]}
  {
    assert s == s[..k] + [s[k]] + s[k + 1..];
  }

  lemma MapWithout<T>(f: T -> Note, xs: seq<T>, k: nat)
    requires k < |xs|
    ensures multiset(MapNotes(f, xs)) == multiset(MapNotes(f, Without(xs, k))) + multiset{f(xs[k])}
  {
    assert MapNotes(f, Without(xs, k)) == Without(MapNotes(f, xs), k);
    WithoutBag(MapNotes(f, xs), k);
  }

  /** Mapping a permutation gives a permutation. */
  lemma {:induction false} MapPermutation<T>(f: T -> Note, xs: seq<T>, ys: seq<T>)
    requires multiset(xs) == multiset(ys)
    ensures multiset(MapNotes(f, xs)) == multiset(MapNotes(f, ys))
    decreases |xs|
  {
    hide Without, MapNotes;
    if xs == [] {
      assert |ys| == |multiset(ys)| == 0;
    } else {
      assert xs[0] in multiset(ys);
      var k :| 0 <= k < |ys| && ys[k] == xs[0];
      WithoutBag(xs, 0);
      WithoutBag(ys, k);
      MapPermutation(f, Without(xs, 0), Without(ys, k));
      MapWithout(f, xs, 0);
      MapWithout(f, ys, k);
    }
  }

  /** Neither the order of log lines nor the order a directory lists its entries matters. */
  lemma OrderIrrelevant(a: Durable, b: Durable, sa: ResumeStatus, sb: ResumeStatus)
    requires a.campaign == b.campaign && multiset(a.log.lines) == multiset(b.log.lines)
    requires multiset(a.iterations) == multiset(b.iterations) && multiset(a.failures) == multiset(b.failures)
    requires StatusOf(BagOf(a), sa) && StatusOf(BagOf(b), sb)
    ensures sa.state == sb.state && sa.frontier == sb.frontier && sa.next == sb.next && sa.blocked == sb.blocked
  {
    hide Rejected, EvidenceOf, Decision;
    MapPermutation(LineNote(a.campaign), a.log.lines, b.log.lines);
    MapPermutation(IterationNote(a.campaign), a.iterations, b.iterations);
    MapPermutation(FailureNote(a.campaign), a.failures, b.failures);
    assert BagOf(a) == BagOf(b);
    if !Rejected(BagOf(a)) { DecisionDetermined(EvidenceOf(BagOf(a)), sa, sb); }
  }

  // ----------------------------------------------------------------- writing --

  /** The next byte appended would continue a line that is already there. */
  predicate Unfinished(log: Log) { log.open && log.lines != [] }

  /** `append_jsonl`: a record that lands on an unfinished line runs into it, and neither can be read again. */
  function AppendRecord(log: Log, record: EventRecord, written: Written): Log {
    if written.Nothing? then log
    else if Unfinished(log) then Log(log.lines[..|log.lines| - 1] + [Malformed], !written.Full?)
    else Log(log.lines + [if written.Part? then Malformed else Parsed(record)], !written.Full?)
  }

  function IndexOf<R(==)>(dir: seq<DirEntry<R>>, name: string): (i: nat)
    ensures i <= |dir|
    ensures i < |dir| ==> dir[i].name == Some(name)
    ensures forall j | 0 <= j < i :: dir[j].name != Some(name)
  {
    if dir == [] || dir[0].name == Some(name) then 0 else 1 + IndexOf(dir[1..], name)
  }

  /** `atomic_write_json`: the rename replaces an entry of the same name; a crash can leave the temporary file. */
  function PutEntry<R(==)>(dir: seq<DirEntry<R>>, name: string, content: R, renamed: Renamed): seq<DirEntry<R>> {
    match renamed
    case Absent => dir
    case TempLeft(pid, timestamp) => dir + [DirEntry(Some(TempName(name, pid, timestamp)), true, None)]
    case Done =>
      var entry := DirEntry(Some(name), true, Some(content));
      var i := IndexOf(dir, name);
      if i < |dir| then dir[i := entry] else dir + [entry]
  }

  datatype Phase =
    | IterationPlanned | IterationStarted | ChildStarted(child: Child) | ChildCompleted(child: Child)
    | CrashMarkerObserved | SigkillDelivered | CrashChildReaped | PostCrashStateObserved | CleanupCompleted
    | TerminalSuccess | TerminalFailure

  datatype Child = Workload | Verification | PlainRelaunch | Recovery | Continuation

  function ChildText(child: Child): (t: string)
    ensures |t| >= 8 && t[0] != 'i'
  {
    match child
    case Workload => "workload"
    case Verification => "verification"
    case PlainRelaunch => "plain-relaunch"
    case Recovery => "recovery"
    case Continuation => "continuation"
  }

  function PhaseText(phase: Phase): string {
    match phase
    case IterationPlanned => "iteration-planned"
    case IterationStarted => "iteration-started"
    case ChildStarted(child) => ChildText(child) + "-child-started"
    case ChildCompleted(child) => ChildText(child) + "-child-completed"
    case CrashMarkerObserved => "crash-marker-observed"
    case SigkillDelivered => "sigkill-delivered"
    case CrashChildReaped => "crash-child-reaped"
    case PostCrashStateObserved => "post-crash-state-observed"
    case CleanupCompleted => "cleanup-completed"
    case TerminalSuccess => TERMINAL_SUCCESS
    case TerminalFailure => TERMINAL_FAILURE
  }

  function PhaseKind(phase: Phase): EventKind {
    match phase
    case TerminalSuccess => EventKind.Success
    case TerminalFailure => EventKind.Failure
    case _ => Lifecycle
  }

  /** The scans read every recorded phase as what it is. */
  lemma PhaseKindExactly(phase: Phase)
    ensures KindOf(PhaseText(phase)) == PhaseKind(phase) && PhaseText(phase) != ""
  {
    assert |TERMINAL_SUCCESS| == |TERMINAL_FAILURE| == 26 && TERMINAL_SUCCESS[0] == TERMINAL_FAILURE[0] == 'i';
    assert TERMINAL_SUCCESS[10] == 't' && TERMINAL_SUCCESS[19] == 's' && TERMINAL_FAILURE[19] == 'f';
    var text := PhaseText(phase);
    if phase.ChildStarted? || phase.ChildCompleted? { assert text[0] == ChildText(phase.child)[0]; }
  }

  /** The steps a controller takes, in terms of what they do to durable state. */
  datatype Action =
    | Record(phase: Phase)
    | PutSingleton
    | PutFailure
    | Spawn(child: Child)
    | Require(what: string)

  function EventFor(campaign: string, s: U64, phase: Phase): EventRecord {
    EventRecord(EVENT_SCHEMA, SCHEMA_VERSION, campaign, s, PhaseText(phase))
  }

  function SingletonFor(campaign: string, s: U64): IterationRecord {
    IterationRecord(ITERATION_SCHEMA, SCHEMA_VERSION, campaign, s, "success", Some(s))
  }

  function FailureFor(campaign: string, s: U64): FailureRecord {
    FailureRecord(FAILURE_SCHEMA, SCHEMA_VERSION, campaign, s, "failure")
  }

  predicate SingletonExists(d: Durable, s: U64) { IndexOf(d.iterations, IterationName(s)) < |d.iterations| }

  /** What one step makes durable. */
  function Perform(d: Durable, s: U64, a: Action, o: Outcome): Durable {
    match a
    case Record(phase) =>
      d.(log := AppendRecord(d.log, EventFor(d.campaign, s, phase), if o.fate.Ok? then Full else o.written))
    case PutSingleton =>
      if SingletonExists(d, s) then d
      else d.(iterations := PutEntry(d.iterations, IterationName(s), SingletonFor(d.campaign, s), if o.fate.Ok? then Done else o.renamed))
    case PutFailure =>
      d.(failures := PutEntry(d.failures, FailureName(s, o.timestamp), FailureFor(d.campaign, s), if o.fate.Ok? then Done else o.renamed))
    case Spawn(_) => d
    case Require(_) => d
  }

  /** What the controller learns of it: an existing singleton is always refused. */
  function Seen(d: Durable, s: U64, a: Action, o: Outcome): Fate {
    if a.PutSingleton? && SingletonExists(d, s) && o.fate.Ok? then Error else o.fate
  }

  function NoteFor(s: U64, a: Action): Option<Note> {
    match a
    case Record(phase) => Some(EventNote(s, PhaseKind(phase)))
    case PutSingleton => Some(Singleton(s))
    case PutFailure => Some(FailureFile(s))
    case _ => None
  }

  /** Only names that are not failure names are unreadable: true of every store written by these steps. */
  ghost predicate Ours(d: Durable) {
    forall e | e in d.failures && OfFailure(e, d.campaign).Bad? :: e.name.Some? && ParseFailureFileName(e.name.value).None?
  }

  /** A directory gains one note, or none when an equal entry is replaced. */
  lemma MapAppend<T>(f: T -> Note, xs: seq<T>, x: T)
    ensures multiset(MapNotes(f, xs + [x])) == multiset(MapNotes(f, xs)) + multiset{f(x)}
  {
    assert MapNotes(f, xs + [x]) == MapNotes(f, xs) + [f(x)];
  }

  /** The bag of a store whose log ends in `line`. */
  lemma LastLine(d: Durable, before: seq<Line>, line: Line, open: bool)
    ensures BagOf(d.(log := Log(before + [line], open))) == BagOf(d.(log := Log(before, open))) + multiset{OfLine(line, d.campaign)}
  {
    hide OfLine, OfIteration, OfFailure, MapNotes;
    MapAppend(LineNote(d.campaign), before, line);
  }

  lemma AppendEffect(d: Durable, s: U64, phase: Phase, written: Written)
    requires s >= 1
    ensures var e := d.(log := AppendRecord(d.log, EventFor(d.campaign, s, phase), written));
      Ours(d) ==> Ours(e)
    ensures var e := d.(log := AppendRecord(d.log, EventFor(d.campaign, s, phase), written));
      var note := EventNote(s, PhaseKind(phase));
      if written.Nothing? then e == d
      else if Unfinished(d.log) || written.Part? then Rejected(BagOf(e))
      else BagOf(e) == BagOf(d) + multiset{note}
  {
    PhaseKindExactly(phase);
    hide PhaseKind, PhaseText, OfIteration, OfFailure, BagOf;
    var record := EventFor(d.campaign, s, phase);
    if Unfinished(d.log) {
      LastLine(d, d.log.lines[..|d.log.lines| - 1], Malformed, !written.Full?);
    } else {
      LastLine(d, d.log.lines, if written.Part? then Malformed else Parsed(record), !written.Full?);
      OpenIrrelevant(d, !written.Full?);
    }
  }

  lemma OpenIrrelevant(d: Durable, open: bool)
    ensures BagOf(d.(log := Log(d.log.lines, open))) == BagOf(d)
  {
  }

  lemma PutSingletonEffect(d: Durable, s: U64, renamed: Renamed)
    requires s >= 1 && !SingletonExists(d, s)
    ensures var e := d.(iterations := PutEntry(d.iterations, IterationName(s), SingletonFor(d.campaign, s), renamed));
      match renamed
      case Absent => e == d
      case TempLeft(_, _) => Rejected(BagOf(e))
      case Done => BagOf(e) == BagOf(d) + multiset{Singleton(s)}
  {
    var e := d.(iterations := PutEntry(d.iterations, IterationName(s), SingletonFor(d.campaign, s), renamed));
    if !renamed.Absent? {
      var entry := e.iterations[|d.iterations|];
      if renamed.TempLeft? {
        TempNameRejected(IterationName(s), renamed.pid, renamed.timestamp);
        assert OfIteration(entry, d.campaign) == Bad;
      } else {
        IterationNameExactly(IterationName(s), s);
        assert OfIteration(entry, d.campaign) == Singleton(s);
      }
      MapAppend(IterationNote(d.campaign), d.iterations, entry);
      assert renamed.TempLeft? ==> BagOf(e)[Bad] > 0;
    }
  }

  lemma FailureAppended(d: Durable, entry: DirEntry<FailureRecord>)
    ensures BagOf(d.(failures := d.failures + [entry])) == BagOf(d) + multiset{OfFailure(entry, d.campaign)}
  {
    hide OfLine, OfIteration, OfFailure, MapNotes;
    MapAppend(FailureNote(d.campaign), d.failures, entry);
  }

  lemma FailureReplaced(d: Durable, i: nat, entry: DirEntry<FailureRecord>)
    requires i < |d.failures| && OfFailure(d.failures[i], d.campaign) == OfFailure(entry, d.campaign)
    ensures BagOf(d.(failures := d.failures[i := entry])) == BagOf(d) && OfFailure(entry, d.campaign) in BagOf(d)
  {
    hide OfLine, OfIteration, OfFailure;
    assert OfFailures(d.failures[i := entry], d.campaign) == OfFailures(d.failures, d.campaign);
    assert OfFailure(entry, d.campaign) == OfFailures(d.failures, d.campaign)[i];
    assert OfFailure(entry, d.campaign) in multiset(OfFailures(d.failures, d.campaign));
  }

  lemma PutFailureEffect(d: Durable, s: U64, timestamp: U64, renamed: Renamed)
    requires s >= 1 && Ours(d)
    ensures var e := d.(failures := PutEntry(d.failures, FailureName(s, timestamp), FailureFor(d.campaign, s), renamed));
      && Ours(e)
      && match renamed
         case Absent => e == d
         case TempLeft(_, _) => Rejected(BagOf(e))
         case Done => FailureFile(s) in BagOf(e) && (BagOf(e) == BagOf(d) || BagOf(e) == BagOf(d) + multiset{FailureFile(s)})
  {
    hide FailureName, TempName, ParseFailureFileName, BagOf;
    var name := FailureName(s, timestamp);
    FailureNameParses(s, timestamp);
    match renamed
    case Absent =>
    case TempLeft(pid, ts) =>
      TempNameRejected(name, pid, ts);
      FailureAppended(d, DirEntry(Some(TempName(name, pid, ts)), true, None));
    case Done =>
      var i := IndexOf(d.failures, name);
      var entry := DirEntry(Some(name), true, Some(FailureFor(d.campaign, s)));
      assert OfFailure(entry, d.campaign) == FailureFile(s);
      if i < |d.failures| {
        assert d.failures[i] in d.failures;
        FailureReplaced(d, i, entry);
      } else {
        FailureAppended(d, entry);
      }
  }

  /** The bag gains at most the step's own note, or becomes unreadable for good. */
  ghost predicate Gains(before: Bag, after: Bag, note: Option<Note>) {
    Rejected(after) || (!Rejected(before) && (after == before || (note.Some? && after == before + multiset{note.value})))
  }

  /** Every step, whatever its outcome; and a step reported as done has left its note. */
  lemma PerformEffect(d: Durable, s: U64, a: Action, o: Outcome)
    requires s >= 1 && Ours(d)
    ensures Ours(Perform(d, s, a, o)) && Perform(d, s, a, o).campaign == d.campaign
    ensures Gains(BagOf(d), BagOf(Perform(d, s, a, o)), NoteFor(s, a))
    ensures Seen(d, s, a, o).Ok? && NoteFor(s, a).Some? ==>
      Rejected(BagOf(Perform(d, s, a, o))) || NoteFor(s, a).value in BagOf(Perform(d, s, a, o))
  {
    hide Rejected, BagOf;
    var e := Perform(d, s, a, o);
    match a
    case Record(phase) =>
      AppendEffect(d, s, phase, if o.fate.Ok? then Full else o.written);
      if Rejected(BagOf(d)) { StaysRejected(d, s, a, o); }
    case PutSingleton =>
      if !SingletonExists(d, s) { PutSingletonEffect(d, s, if o.fate.Ok? then Done else o.renamed); }
      if Rejected(BagOf(d)) { StaysRejected(d, s, a, o); }
    case PutFailure =>
      PutFailureEffect(d, s, o.timestamp, if o.fate.Ok? then Done else o.renamed);
      if Rejected(BagOf(d)) { StaysRejected(d, s, a, o); }
    case _ =>
  }

  lemma StaysRejected(d: Durable, s: U64, a: Action, o: Outcome)
    requires s >= 1 && Ours(d) && Rejected(BagOf(d))
    ensures Rejected(BagOf(Perform(d, s, a, o)))
  {
    hide Rejected, BagOf;
    match a
    case Record(phase) =>
      AppendEffect(d, s, phase, if o.fate.Ok? then Full else o.written);
      RejectedGrows(BagOf(d), multiset{EventNote(s, PhaseKind(phase))});
    case PutSingleton =>
      if !SingletonExists(d, s) { PutSingletonEffect(d, s, if o.fate.Ok? then Done else o.renamed); }
      RejectedGrows(BagOf(d), multiset{Singleton(s)});
    case PutFailure =>
      PutFailureEffect(d, s, o.timestamp, if o.fate.Ok? then Done else o.renamed);
      RejectedGrows(BagOf(d), multiset{FailureFile(s)});
    case _ =>
  }
}
