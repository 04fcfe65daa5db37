/** The three evidence scans and the evidence file names (endurance/resume.rs). */
module EvidenceScan {
  import opened Decimal
  import opened Resume

  const EVENT_SCHEMA := "oxide-batch-workloads.endurance-event"
  const ITERATION_SCHEMA := "oxide-batch-workloads.endurance-iteration"
  const FAILURE_SCHEMA := "oxide-batch-workloads.endurance-failure"
  const SCHEMA_VERSION: nat := 1
  const TERMINAL_SUCCESS := "iteration-terminal-success"
  const TERMINAL_FAILURE := "iteration-terminal-failure"

  type U64 = n: nat | n <= U64_MAX

  datatype EventRecord = EventRecord(
    schema: string, schemaVersion: nat, campaignId: string, sequence: U64, phase: string)
  datatype IterationRecord = IterationRecord(
    schema: string, schemaVersion: nat, campaignId: string, sequence: U64, terminal: string,
    executionSequence: Option<U64>)
  datatype FailureRecord = FailureRecord(
    schema: string, schemaVersion: nat, campaignId: string, sequence: U64, terminal: string)

  /** One line of the event log; a torn or run-together line is Malformed. */
  datatype Line = Blank | Malformed | Parsed(record: EventRecord)

  /** One directory entry; name is None when it is not UTF-8, content is None when it does not parse. */
  datatype DirEntry<R> = DirEntry(name: Option<string>, regular: bool, content: Option<R>)

  // ------------------------------------------------------------ file names --

  function IterationName(s: nat): string { Padded(s, 6) + ".json" }

  function FailureName(s: nat, timestamp: nat): string { Padded(s, 6) + "-" + Digits(timestamp) + ".json" }

  /** The name an atomic write uses before its rename. */
  function TempName(file: string, pid: nat, timestamp: nat): string {
    "." + file + ".tmp-" + Digits(pid) + "-" + Digits(timestamp)
  }

  function StripSuffix(name: string, suffix: string): (r: Option<string>)
    ensures r.Some? <==> |name| >= |suffix| && name[|name| - |suffix|..] == suffix
    ensures r.Some? ==> name == r.value + suffix
  {
    if |name| >= |suffix| && name[|name| - |suffix|..] == suffix then Some(name[..|name| - |suffix|]) else None
  }

  /** `split_once(c)`: around the first c. */
  function SplitOnce(s: string, c: char): (r: Option<(string, string)>)
    ensures r.None? <==> c !in s
    ensures r.Some? ==> s == r.value.0 + [c] + r.value.1 && c !in r.value.0
  {
    if s == [] then None
    else if s[0] == c then Some(([], s[1..]))
    else match SplitOnce(s[1..], c)
      case None => None
      case Some(p) => assert s == [s[0]] + s[1..]; Some(([s[0]] + p.0, p.1))
  }

  function ParseSequenceText(text: string): Option<nat> {
    match ParseU64(text)
    case None => None
    case Some(n) => if n == 0 then None else Some(n)
  }

  function ParseIterationFileName(name: string): Option<nat> {
    match StripSuffix(name, ".json")
    case None => None
    case Some(stem) =>
      match ParseSequenceText(stem)
      case None => None
      case Some(s) => if name != IterationName(s) then None else Some(s)
  }

  function ParseFailureFileName(name: string): Option<nat> {
    match StripSuffix(name, ".json")
    case None => None
    case Some(stem) =>
      match SplitOnce(stem, '-')
      case None => None
      case Some((sequenceText, timestampText)) =>
        match ParseSequenceText(sequenceText)
        case None => None
        case Some(s) =>
          if sequenceText != Padded(s, 6) then None
          else if ParseU64(timestampText).None? then None
          else Some(s)
  }

  lemma StripSuffixOf(stem: string, suffix: string)
    ensures StripSuffix(stem + suffix, suffix) == Some(stem)
  {
    assert (stem + suffix)[|stem|..] == suffix;
    assert (stem + suffix)[..|stem|] == stem;
  }

  lemma {:induction false} SplitOnceOf(a: string, c: char, b: string)
    requires c !in a
    ensures SplitOnce(a + [c] + b, c) == Some((a, b))
  {
    var s := a + [c] + b;
    if a == [] {
      assert s[1..] == b;
    } else {
      SplitOnceOf(a[1..], c, b);
      assert s[1..] == a[1..] + [c] + b;
      assert [a[0]] + a[1..] == a;
    }
  }

  /** The only names read as sequence s are the ones printed for s. */
  lemma IterationNameExactly(name: string, s: nat)
    ensures ParseIterationFileName(name) == Some(s) <==> 1 <= s <= U64_MAX && name == IterationName(s)
  {
    if 1 <= s <= U64_MAX && name == IterationName(s) {
      StripSuffixOf(Padded(s, 6), ".json");
      ParsePadded(s, 6);
    }
  }

  /** Failure names: the same, with any digit text for a u64 timestamp. */
  lemma FailureNameExactly(name: string, s: nat)
    ensures ParseFailureFileName(name) == Some(s) <==>
            1 <= s <= U64_MAX && exists t :: ParseU64(t).Some? && name == Padded(s, 6) + "-" + t + ".json"
  {
    if 1 <= s <= U64_MAX && exists t :: ParseU64(t).Some? && name == Padded(s, 6) + "-" + t + ".json" {
      var t :| ParseU64(t).Some? && name == Padded(s, 6) + "-" + t + ".json";
      StripSuffixOf(Padded(s, 6) + "-" + t, ".json");
      SplitOnceOf(Padded(s, 6), '-', t);
      ParsePadded(s, 6);
    }
    if ParseFailureFileName(name) == Some(s) {
      var stem := StripSuffix(name, ".json").value;
      var t := SplitOnce(stem, '-').value.1;
      assert name == Padded(s, 6) + "-" + t + ".json";
    }
  }

  lemma FailureNameParses(s: nat, timestamp: nat)
    requires 1 <= s <= U64_MAX && timestamp <= U64_MAX
    ensures ParseFailureFileName(FailureName(s, timestamp)) == Some(s)
  {
    ValueOfDigits(timestamp);
    FailureNameExactly(FailureName(s, timestamp), s);
  }

  /** A leftover temporary file is never mistaken for evidence: both scans reject its name. */
  lemma TempNameRejected(file: string, pid: nat, timestamp: nat)
    ensures ParseIterationFileName(TempName(file, pid, timestamp)) == None
    ensures ParseFailureFileName(TempName(file, pid, timestamp)) == None
  {
    var name := TempName(file, pid, timestamp);
    var d := Digits(timestamp);
    assert name[|name| - 1] == d[|d| - 1] && IsDigit(d[|d| - 1]);
    assert ".json"[4] == 'n';
    assert |name| >= 5 && name[|name| - 5..][4] == name[|name| - 1];
  }

  // ----------------------------------------------------------------- notes --

  datatype EventKind = Lifecycle | Success | Failure

  /** What one line or file contributes: nothing usable, or one fact about a sequence. */
  datatype Note = Bad | EventNote(sequence: U64, kind: EventKind) | Singleton(sequence: U64) | FailureFile(sequence: U64)

  predicate ValidCommonRecord(schema: string, expected: string, version: nat, campaign: string, expectedCampaign: string, sequence: nat) {
    schema == expected && version == SCHEMA_VERSION && campaign == expectedCampaign && sequence != 0
  }

  function KindOf(phase: string): EventKind {
    if phase == TERMINAL_SUCCESS then Success else if phase == TERMINAL_FAILURE then Failure else Lifecycle
  }

  function OfLine(line: Line, campaign: string): (r: Note)
    ensures r.Bad? || (r.EventNote? && r.sequence >= 1)
  {
    if !line.Parsed? then Bad
    else
      var r := line.record;
      if !ValidCommonRecord(r.schema, EVENT_SCHEMA, r.schemaVersion, r.campaignId, campaign, r.sequence) then Bad
      else if r.phase == "" then Bad
      else EventNote(r.sequence, KindOf(r.phase))
  }

  function OfIteration(e: DirEntry<IterationRecord>, campaign: string): (r: Note)
    ensures r.Bad? || (r.Singleton? && r.sequence >= 1)
  {
    if !e.regular || e.name.None? || e.content.None? then Bad
    else
      match ParseIterationFileName(e.name.value)
      case None => Bad
      case Some(s) =>
        var r := e.content.value;
        if !ValidCommonRecord(r.schema, ITERATION_SCHEMA, r.schemaVersion, r.campaignId, campaign, r.sequence)
           || r.sequence != s || r.terminal != "success" || r.executionSequence != Some(r.sequence)
        then Bad else Singleton(r.sequence)
  }

  function OfFailure(e: DirEntry<FailureRecord>, campaign: string): (r: Note)
    ensures r.Bad? || (r.FailureFile? && r.sequence >= 1)
  {
    if !e.regular || e.name.None? || e.content.None? then Bad
    else
      match ParseFailureFileName(e.name.value)
      case None => Bad
      case Some(s) =>
        var r := e.content.value;
        if !ValidCommonRecord(r.schema, FAILURE_SCHEMA, r.schemaVersion, r.campaignId, campaign, r.sequence)
           || r.sequence != s || r.terminal != "failure"
        then Bad else FailureFile(r.sequence)
  }

  // ------------------------------------------------------ what a scan accepts --

  predicate GoodLine(line: Line, campaign: string) {
    && line.Parsed? && line.record.schema == "oxide-batch-workloads.endurance-event" && line.record.schemaVersion == 1
    && line.record.campaignId == campaign && line.record.sequence >= 1 && line.record.phase != ""
  }

  /** The singleton of the sequence its name prints. */
  predicate GoodIteration(e: DirEntry<IterationRecord>, campaign: string) {
    && e.regular && e.name.Some? && e.content.Some?
    && var r := e.content.value;
    && r.schema == "oxide-batch-workloads.endurance-iteration" && r.schemaVersion == 1 && r.campaignId == campaign
    && r.sequence >= 1 && e.name.value == Padded(r.sequence, 6) + ".json"
    && r.terminal == "success" && r.executionSequence == Some(r.sequence)
  }

  ghost predicate GoodFailure(e: DirEntry<FailureRecord>, campaign: string) {
    && e.regular && e.name.Some? && e.content.Some?
    && var r := e.content.value;
    && r.schema == "oxide-batch-workloads.endurance-failure" && r.schemaVersion == 1 && r.campaignId == campaign
    && r.sequence >= 1 && r.terminal == "failure"
    && exists t :: ParseU64(t).Some? && e.name.value == Padded(r.sequence, 6) + "-" + t + ".json"
  }

  lemma LineAccepted(line: Line, campaign: string)
    ensures OfLine(line, campaign).Bad? <==> !GoodLine(line, campaign)
    ensures GoodLine(line, campaign) ==> OfLine(line, campaign) == EventNote(line.record.sequence,
      if line.record.phase == "iteration-terminal-success" then Success
      else if line.record.phase == "iteration-terminal-failure" then Failure else Lifecycle)
  {
  }

  lemma IterationAccepted(e: DirEntry<IterationRecord>, campaign: string)
    ensures OfIteration(e, campaign).Bad? <==> !GoodIteration(e, campaign)
    ensures GoodIteration(e, campaign) ==> OfIteration(e, campaign) == Singleton(e.content.value.sequence)
  {
    if e.name.Some? && e.content.Some? { IterationNameExactly(e.name.value, e.content.value.sequence); }
    hide Padded, ParseIterationFileName;
  }

  lemma FailureAccepted(e: DirEntry<FailureRecord>, campaign: string)
    ensures OfFailure(e, campaign).Bad? <==> !GoodFailure(e, campaign)
    ensures GoodFailure(e, campaign) ==> OfFailure(e, campaign) == FailureFile(e.content.value.sequence)
  {
    if e.name.Some? && e.content.Some? { FailureNameExactly(e.name.value, e.content.value.sequence); }
    hide Padded, ParseFailureFileName, ParseU64;
  }

  lemma {:induction false} MetTwice(notes: seq<Note>, n: Note)
    ensures multiset(notes)[n] > 1 <==> exists i, j :: 0 <= i < j < |notes| && notes[i] == notes[j] == n
  {
    if notes != [] {
      var k := |notes| - 1;
      MetTwice(notes[..k], n);
      assert notes == notes[..k] + [notes[k]];
      if multiset(notes)[n] > 1 && notes[k] == n {
        assert n in multiset(notes[..k]);
        var i :| 0 <= i < k && notes[i] == n;
      }
    }
  }

  function MapNotes<T>(f: T -> Note, xs: seq<T>): (r: seq<Note>)
    ensures |r| == |xs| && forall i | 0 <= i < |r| :: r[i] == f(xs[i])
  {
    seq(|xs|, i requires 0 <= i < |xs| => f(xs[i]))
  }

  function LineNote(campaign: string): Line -> Note { l => OfLine(l, campaign) }
  function IterationNote(campaign: string): DirEntry<IterationRecord> -> Note { e => OfIteration(e, campaign) }
  function FailureNote(campaign: string): DirEntry<FailureRecord> -> Note { e => OfFailure(e, campaign) }

  function OfLines(lines: seq<Line>, campaign: string): seq<Note> { MapNotes(LineNote(campaign), lines) }
  function OfIterations(es: seq<DirEntry<IterationRecord>>, campaign: string): seq<Note> { MapNotes(IterationNote(campaign), es) }
  function OfFailures(es: seq<DirEntry<FailureRecord>>, campaign: string): seq<Note> { MapNotes(FailureNote(campaign), es) }

  // -------------------------------------------- the evidence a bag amounts to --

  type Bag = multiset<Note>

  /** Some scan fails on this bag. */
  ghost predicate Rejected(bag: Bag) { bag[Bad] > 0 || exists s :: bag[Singleton(s)] > 1 }

  ghost predicate Numbered(bag: Bag) { forall n | n in bag :: n.Bad? || n.sequence >= 1 }

  function Mentioned(bag: Bag): set<nat> { set n | n in bag && !n.Bad? :: n.sequence as nat }

  function Tally(bag: Bag, s: U64): SequenceEvidence {
    SequenceEvidence(
      bag[EventNote(s, Lifecycle)] + bag[EventNote(s, Success)] + bag[EventNote(s, Failure)],
      bag[EventNote(s, Success)], bag[EventNote(s, Failure)], bag[Singleton(s)] > 0, bag[FailureFile(s)])
  }

  function EvidenceOf(bag: Bag): (ev: EvidenceMap)
    ensures ev.Keys == Mentioned(bag) && forall k | k in ev :: k <= U64_MAX
  {
    map s | s in Mentioned(bag) :: Tally(bag, s)
  }

  lemma MentionedExactly(bag: Bag, s: U64)
    ensures s in Mentioned(bag) <==> Tally(bag, s) != NoEvidence
  {
    forall n | n in bag && !n.Bad? && n.sequence == s ensures Tally(bag, s) != NoEvidence {
      match n
      case EventNote(_, k) => match k { case Lifecycle => case Success => case Failure => }
      case Singleton(_) =>
      case FailureFile(_) =>
      case Bad =>
    }
    if Tally(bag, s) != NoEvidence {
      var t := Tally(bag, s);
      assert EventNote(s, Lifecycle) in bag || EventNote(s, Success) in bag || EventNote(s, Failure) in bag
        || Singleton(s) in bag || FailureFile(s) in bag;
    }
  }

  /** The evidence of a numbered bag is what `Resume` calls scanned. */
  lemma EvidenceIsScanned(bag: Bag)
    requires Numbered(bag)
    ensures Scanned(EvidenceOf(bag))
  {
    forall s | s in EvidenceOf(bag) ensures Tally(bag, s) != NoEvidence { MentionedExactly(bag, s); }
  }

  /** Adding one note changes one sequence's entry. */
  lemma AddNote(bag: Bag, n: Note)
    requires !n.Bad?
    ensures EvidenceOf(bag + multiset{n}) == EvidenceOf(bag)[n.sequence as nat := Tally(bag + multiset{n}, n.sequence)]
  {
    var more := bag + multiset{n};
    assert n in more;
    forall m | m in bag ensures m in more { }
    assert Mentioned(more) == Mentioned(bag) + {n.sequence as nat};
    forall s: U64 | s != n.sequence ensures Tally(more, s) == Tally(bag, s) { }
  }

  function EntryOrDefault(ev: EvidenceMap, s: nat): SequenceEvidence { if s in ev then ev[s] else NoEvidence }

  lemma EntryIsTally(bag: Bag, s: U64)
    ensures EntryOrDefault(EvidenceOf(bag), s) == Tally(bag, s)
  {
    MentionedExactly(bag, s);
  }

  function Bump(e: SequenceEvidence, n: Note): SequenceEvidence
    requires !n.Bad?
  {
    match n
    case EventNote(_, k) =>
      SequenceEvidence(e.lifecycle + 1, e.successes + (if k.Success? then 1 else 0),
                       e.failures + (if k.Failure? then 1 else 0), e.singleton, e.failureFiles)
    case Singleton(_) => e.(singleton := true)
    case FailureFile(_) => e.(failureFiles := e.failureFiles + 1)
  }

  /** One scanned note either rejects the scan or bumps one entry. */
  lemma NoteStep(bag: Bag, n: Note)
    requires !Rejected(bag)
    ensures Rejected(bag + multiset{n}) <==> n.Bad? || (n.Singleton? && EntryOrDefault(EvidenceOf(bag), n.sequence).singleton)
    ensures !n.Bad? ==>
      EvidenceOf(bag + multiset{n}) == EvidenceOf(bag)[n.sequence as nat := Bump(EntryOrDefault(EvidenceOf(bag), n.sequence), n)]
  {
    var more := bag + multiset{n};
    assert bag[Bad] == 0;
    if n.Bad? {
      assert more[Bad] == 1;
    } else {
      AddNote(bag, n);
      EntryIsTally(bag, n.sequence);
      assert Tally(more, n.sequence) == Bump(Tally(bag, n.sequence), n) by { TallyBump(bag, n); }
      assert more[Bad] == 0;
      if n.Singleton? { assert more[Singleton(n.sequence)] == bag[Singleton(n.sequence)] + 1; }
      forall s ensures more[Singleton(s)] == bag[Singleton(s)] + (if n == Singleton(s) then 1 else 0) { }
    }
  }

  lemma TallyBump(bag: Bag, n: Note)
    requires !n.Bad?
    ensures Tally(bag + multiset{n}, n.sequence) == Bump(Tally(bag, n.sequence), n)
  {
  }

  /** The notes met after i steps of a scan. */
  ghost function Upto(seen: Bag, notes: seq<Note>, i: nat): Bag
    requires i <= |notes|
  {
    seen + multiset(notes[..i])
  }

  lemma UptoSteps(seen: Bag, notes: seq<Note>)
    ensures Upto(seen, notes, 0) == seen
    ensures Upto(seen, notes, |notes|) == seen + multiset(notes)
    ensures forall i | 0 <= i < |notes| :: Upto(seen, notes, i + 1) == Upto(seen, notes, i) + multiset{notes[i]}
  {
    assert notes[..|notes|] == notes;
    forall i | 0 <= i < |notes|
      ensures Upto(seen, notes, i + 1) == Upto(seen, notes, i) + multiset{notes[i]}
    {
      assert notes[..i + 1] == notes[..i] + [notes[i]];
    }
  }

  /** A scan that stops on a rejected prefix is right about the whole input. */
  lemma RejectedSticks(seen: Bag, notes: seq<Note>, i: nat)
    requires i <= |notes| && Rejected(Upto(seen, notes, i))
    ensures Rejected(seen + multiset(notes))
  {
    assert notes == notes[..i] + notes[i..];
    RejectedGrows(Upto(seen, notes, i), multiset(notes[i..]));
    assert Upto(seen, notes, i) + multiset(notes[i..]) == seen + multiset(notes);
  }

  lemma RejectedGrows(bag: Bag, extra: Bag)
    requires Rejected(bag)
    ensures Rejected(bag + extra)
  {
    if bag[Bad] == 0 {
      var s :| bag[Singleton(s)] > 1;
      assert (bag + extra)[Singleton(s)] > 1;
    }
  }

  // ------------------------------------------------------------- the scans --

  /** `scan_events`: counts the valid events, or rejects the log. */
  method ScanEvents(lines: seq<Line>, campaign: string, evidence: EvidenceMap, ghost seen: Bag) returns (ok: bool, out: EvidenceMap)
    requires !Rejected(seen) && evidence == EvidenceOf(seen)
    ensures ok <==> !Rejected(seen + multiset(OfLines(lines, campaign)))
    ensures ok ==> out == EvidenceOf(seen + multiset(OfLines(lines, campaign)))
  {
    hide Rejected, Upto, EvidenceOf, OfLine;
    out := evidence;
    ghost var notes := OfLines(lines, campaign);
    UptoSteps(seen, notes);
    for i := 0 to |lines|
      invariant !Rejected(Upto(seen, notes, i))
      invariant out == EvidenceOf(Upto(seen, notes, i))
    {
      var note := OfLine(lines[i], campaign);
      NoteStep(Upto(seen, notes, i), note);
      assert Upto(seen, notes, i + 1) == Upto(seen, notes, i) + multiset{note};
      if note.Bad? {
        RejectedSticks(seen, notes, i + 1);
        return false, out;
      }
      var entry := EntryOrDefault(out, note.sequence);
      var successes := entry.successes + (if note.kind.Success? then 1 else 0);
      var failures := entry.failures + (if note.kind.Failure? then 1 else 0);
      out := out[note.sequence as nat := entry.(lifecycle := entry.lifecycle + 1, successes := successes, failures := failures)];
    }
    return true, out;
  }

  /** `scan_iterations`: marks each singleton, or rejects the directory. */
  method ScanIterations(dir: seq<DirEntry<IterationRecord>>, campaign: string, evidence: EvidenceMap, ghost seen: Bag) returns (ok: bool, out: EvidenceMap)
    requires !Rejected(seen) && evidence == EvidenceOf(seen)
    ensures ok <==> !Rejected(seen + multiset(OfIterations(dir, campaign)))
    ensures ok ==> out == EvidenceOf(seen + multiset(OfIterations(dir, campaign)))
  {
    hide Rejected, Upto, EvidenceOf, OfIteration;
    out := evidence;
    ghost var notes := OfIterations(dir, campaign);
    UptoSteps(seen, notes);
    for i := 0 to |dir|
      invariant !Rejected(Upto(seen, notes, i))
      invariant out == EvidenceOf(Upto(seen, notes, i))
    {
      var note := OfIteration(dir[i], campaign);
      NoteStep(Upto(seen, notes, i), note);
      assert Upto(seen, notes, i + 1) == Upto(seen, notes, i) + multiset{note};
      if note.Bad? || EntryOrDefault(out, note.sequence).singleton {
        RejectedSticks(seen, notes, i + 1);
        return false, out;
      }
      var entry := EntryOrDefault(out, note.sequence);
      out := out[note.sequence as nat := entry.(singleton := true)];
    }
    return true, out;
  }

  /** `scan_failures`: counts the failure artifacts, or rejects the directory. */
  method ScanFailures(dir: seq<DirEntry<FailureRecord>>, campaign: string, evidence: EvidenceMap, ghost seen: Bag) returns (ok: bool, out: EvidenceMap)
    requires !Rejected(seen) && evidence == EvidenceOf(seen)
    ensures ok <==> !Rejected(seen + multiset(OfFailures(dir, campaign)))
    ensures ok ==> out == EvidenceOf(seen + multiset(OfFailures(dir, campaign)))
  {
    hide Rejected, Upto, EvidenceOf, OfFailure;
    out := evidence;
    ghost var notes := OfFailures(dir, campaign);
    UptoSteps(seen, notes);
    for i := 0 to |dir|
      invariant !Rejected(Upto(seen, notes, i))
      invariant out == EvidenceOf(Upto(seen, notes, i))
    {
      var note := OfFailure(dir[i], campaign);
      NoteStep(Upto(seen, notes, i), note);
      assert Upto(seen, notes, i + 1) == Upto(seen, notes, i) + multiset{note};
      if note.Bad? {
        RejectedSticks(seen, notes, i + 1);
        return false, out;
      }
      var entry := EntryOrDefault(out, note.sequence);
      out := out[note.sequence as nat := entry.(failureFiles := entry.failureFiles + 1)];
    }
    return true, out;
  }

}
