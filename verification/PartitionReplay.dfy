/** Partition work killed and restarted any number of times, and the refusal to recover over a changed source
    (PartitionWorker::execute in postgres-local-partition/src/main.rs, recover in its recoveryctl). */
module PartitionReplay {
  import opened Decimal
  import opened PartitionPlan
  import RowCodec

  /** A run's fixed inputs, and the hash behind every digest. */
  datatype Config = Config(rows: nat, partitions: nat, hash: string -> string)

  predicate ConfigOk(c: Config) {
    c.partitions <= U16_MAX && ValidateShape(c.rows, c.partitions, 1).Some?
  }

  function Size(c: Config): (size: nat)
    requires ConfigOk(c)
    ensures size >= 1 && size * c.partitions == c.rows
  {
    ValidateShape(c.rows, c.partitions, 1).value
  }

  ghost predicate Injective(c: Config) { forall a, b :: c.hash(a) == c.hash(b) ==> a == b }

  // ------------------------------------------------------------------ the source --

  /** The payload of source ids 1, 2, 3, and so on. */
  type Content = seq<RowCodec.I64>

  /** One line of what `source_identity` hashes. */
  datatype Line = Line(id: int, payload: int)

  function LineText(l: Line): string { SignedDigits(l.id) + ['|'] + (SignedDigits(l.payload) + ['\n']) }

  function LinesOf(c: Content): (ls: seq<Line>)
    ensures |ls| == |c| && forall i | 0 <= i < |c| :: ls[i] == Line(i + 1, c[i])
  {
    seq(|c|, i requires 0 <= i < |c| => Line(i + 1, c[i]))
  }

  function DigestOf(cfg: Config, c: Content): string { cfg.hash(RowCodec.EncodeAll(LineText, LinesOf(c))) }

  function ReadLine(s: string): Option<(Line, string)> {
    match RowCodec.TakeUntil(s, '|')
    case None => None
    case Some(a) => match RowCodec.TakeUntil(a.1, '\n')
      case None => None
      case Some(b) => Some((Line(SignedValue(a.0), SignedValue(b.0)), b.1))
  }

  lemma LineInverts(l: Line)
    ensures RowCodec.Inverts(ReadLine, LineText, l)
  {
    hide RowCodec.TakeUntil, SignedDigits, SignedValue;
    forall rest ensures ReadLine(LineText(l) + rest) == Some((l, rest)) {
      var tail := SignedDigits(l.payload) + ['\n'] + rest;
      assert LineText(l) + rest == SignedDigits(l.id) + ['|'] + tail;
      RowCodec.TakeUntilStops(SignedDigits(l.id), '|', tail);
      RowCodec.TakeUntilStops(SignedDigits(l.payload), '\n', rest);
      SignedValueOfDigits(l.id);
      SignedValueOfDigits(l.payload);
    }
  }

  /** Each source row adds its id and its payload, separated by a bar and ended by a line end. */
  lemma SourceTextGrows(c: Content, payload: RowCodec.I64)
    ensures RowCodec.EncodeAll(LineText, LinesOf(c + [payload])) ==
            RowCodec.EncodeAll(LineText, LinesOf(c)) + (SignedDigits(|c| + 1) + "|" + SignedDigits(payload) + "\n")
  {
    hide SignedDigits;
    var l := Line(|c| + 1, payload);
    assert LinesOf(c + [payload]) == LinesOf(c) + [l];
    RowCodec.EncodeAllAppend(LineText, LinesOf(c), l);
    assert LineText(l) == SignedDigits(|c| + 1) + "|" + SignedDigits(payload) + "\n";
  }

  lemma NextLine(c: Content, n: nat)
    requires n < |c|
    ensures RowCodec.EncodeAll(LineText, LinesOf(c[..n + 1])) ==
            RowCodec.EncodeAll(LineText, LinesOf(c[..n])) + LineText(Line(n + 1, c[n]))
  {
    RowCodec.EncodeAllAppend(LineText, LinesOf(c[..n]), Line(n + 1, c[n]));
    assert LinesOf(c[..n + 1]) == LinesOf(c[..n]) + [Line(n + 1, c[n])];
  }

  /** `source_identity` */
  method SourceIdentity(cfg: Config, source: Content) returns (count: nat, digest: string)
    ensures count == |source| && digest == DigestOf(cfg, source)
  {
    var text: string := [];
    count := 0;
    assert source[..0] == [] && RowCodec.EncodeAll(LineText, LinesOf([])) == [];
    hide RowCodec.EncodeAll, LinesOf, LineText;
    while count < |source|
      invariant count <= |source| && text == RowCodec.EncodeAll(LineText, LinesOf(source[..count]))
    {
      NextLine(source, count);
      text := text + LineText(Line(count + 1, source[count]));
      count := count + 1;
    }
    assert source[..count] == source;
    digest := cfg.hash(text);
  }

  /** Equal source digests mean equal sources. */
  lemma DigestIdentifies(cfg: Config, a: Content, b: Content)
    requires Injective(cfg)
    ensures DigestOf(cfg, a) == DigestOf(cfg, b) <==> a == b
  {
    forall l: Line ensures RowCodec.Inverts(ReadLine, LineText, l) { LineInverts(l); }
    RowCodec.DecodeAllInverts(ReadLine, LineText, LinesOf(a));
    RowCodec.DecodeAllInverts(ReadLine, LineText, LinesOf(b));
    if DigestOf(cfg, a) == DigestOf(cfg, b) {
      assert LinesOf(a) == LinesOf(b);
      forall i | 0 <= i < |a| ensures a[i] == b[i] { assert LinesOf(a)[i] == LinesOf(b)[i]; }
    }
  }

  // ------------------------------------------------------------------- the state --

  datatype Row = Row(value: int, key: string)

  /** The destination rows of one run name. */
  type Table = map<int, Row>

  datatype Status = NotLaunched | Running | Failed | Completed

  /** A live process: the digest it computed when it started, and the partitions it has written but not yet marked. */
  datatype Process = Process(digest: string, written: set<nat>)

  datatype State = State(source: Content, plan: seq<Partition>, latest: Status, live: Option<Process>, table: Table)

  function Fresh(source: Content): State { State(source, [], NotLaunched, None, map[]) }

  function Projected(payload: int): int { payload * 3 + 7 }

  predicate Fits(value: int) { I64_MIN <= value <= I64_MAX }

  /** The worker's own check of its durable assignment. */
  predicate Expected(size: nat, p: Partition, digest: string) {
    && p.key == PartitionKey(p.index) && p.start == p.index * size + 1 && p.end == p.start + (size - 1) && p.digest == digest
  }

  /** `WHERE source_id BETWEEN start AND end` */
  predicate Selected(p: Partition, source: Content, id: int) { p.start <= id <= p.end && 1 <= id <= |source| }

  /** The upsert: every source row of the range, with its projected value and the partition's key. */
  function Upserted(t: Table, source: Content, p: Partition): Table {
    t + map id: int | 1 <= id <= |source| && Selected(p, source, id) :: Row(Projected(source[id - 1]), p.key)
  }

  /** PostgreSQL's bigint arithmetic: the product and the sum each have to fit. */
  predicate ProjectionFits(payload: int) { Fits(payload * 3) && Fits(payload * 3 + 7) }

  predicate NoOverflow(source: Content, p: Partition) {
    forall id: int | 1 <= id <= |source| && Selected(p, source, id) :: ProjectionFits(source[id - 1])
  }

  // ------------------------------------------------------------------- the steps --

  datatype Action =
    | Launch
    | Work(p: nat)
    | MarkCompleted(p: nat)
    | EndRun
    | Kill
    | Recover
    | Mutate(id: nat, payload: RowCodec.I64)

  /** `expected_assignment`: None for an index out of range. */
  function ExpectedAssignment(cfg: Config, index: nat): Option<(string, nat, nat)>
    requires ConfigOk(cfg)
  {
    if index >= cfg.partitions then None
    else Some((PartitionKey(index), index * Size(cfg) + 1, index * Size(cfg) + Size(cfg)))
  }

  predicate Recoverable(cfg: Config, p: Partition, digest: string)
    requires ConfigOk(cfg)
  {
    ExpectedAssignment(cfg, p.index) == Some((p.key, p.start, p.end)) && p.digest == digest
  }

  predicate RecoveryAccepted(cfg: Config, plan: seq<Partition>, latest: Status, sourceRows: nat, digest: string)
    requires ConfigOk(cfg)
  {
    && sourceRows == cfg.rows && latest == Running && |plan| == cfg.partitions
    && forall p | p in plan :: Recoverable(cfg, p, digest)
  }

  /** The checks of `recover`, in order. */
  method CheckRecovery(cfg: Config, plan: seq<Partition>, latest: Status, sourceRows: nat, digest: string) returns (ok: bool)
    requires ConfigOk(cfg)
    ensures ok <==> RecoveryAccepted(cfg, plan, latest, sourceRows, digest)
  {
    if sourceRows != cfg.rows { return false; }
    if latest != Running { return false; }
    var durable := SortByKey(plan);
    SortSorts(plan);
    PlanMatches(plan, durable, []);
    if |durable| != cfg.partitions { return false; }
    for i := 0 to |durable|
      invariant forall j | 0 <= j < i :: Recoverable(cfg, durable[j], digest)
    {
      var p := durable[i];
      var e := ExpectedAssignment(cfg, p.index);
      if e.None? || p.key != e.value.0 || p.start != e.value.1 || p.end != e.value.2 || p.digest != digest {
        assert p in plan;
        return false;
      }
    }
    return true;
  }

  /** A worker's write goes through: its partition is still open, its assignment passes the check, nothing overflows. */
  predicate TakesEffect(cfg: Config, st: State, p: nat)
    requires ConfigOk(cfg)
  {
    && st.live.Some? && p < |st.plan| && !st.plan[p].completed
    && Expected(Size(cfg), st.plan[p], st.live.value.digest) && NoOverflow(st.source, st.plan[p])
  }

  function Step(cfg: Config, st: State, a: Action): State
    requires ConfigOk(cfg)
  {
    match a
    case Launch =>
      if st.live.Some? || st.latest == Running || st.latest == Completed then st
      else
        var digest := DigestOf(cfg, st.source);
        var plan := if st.latest == NotLaunched then NewPlan(cfg, digest) else st.plan;
        st.(plan := plan, latest := Running, live := Some(Process(digest, {})))
    case Work(p) =>
      if !TakesEffect(cfg, st, p) then st
      else st.(table := Upserted(st.table, st.source, st.plan[p]),
               live := Some(st.live.value.(written := st.live.value.written + {p})))
    case MarkCompleted(p) =>
      if st.live.None? || p >= |st.plan| || p !in st.live.value.written then st
      else st.(plan := st.plan[p := st.plan[p].(completed := true)])
    case EndRun =>
      if st.live.None? then st
      else st.(live := None, latest := if forall p | p in st.plan :: p.completed then Completed else Failed)
    case Kill => st.(live := None)
    case Recover =>
      if st.live.None? && RecoveryAccepted(cfg, st.plan, st.latest, |st.source|, DigestOf(cfg, st.source)) then st.(latest := Failed) else st
    case Mutate(id, payload) =>
      if 1 <= id <= |st.source| then st.(source := st.source[id - 1 := payload]) else st
  }

  /** The checks, spelled out: a recoverable entry names the key and the range of its own index, below the partition
      count, and the live digest. */
  lemma RecoverableExactly(cfg: Config, p: Partition, digest: string)
    requires ConfigOk(cfg)
    ensures Recoverable(cfg, p, digest) <==> (
      && p.index < cfg.partitions && p.key == "partition-" + Padded(p.index, 4)
      && p.start == p.index * (cfg.rows / cfg.partitions) + 1 && p.end == (p.index + 1) * (cfg.rows / cfg.partitions)
      && p.digest == digest)
  {
    hide Padded;
    assert Size(cfg) == cfg.rows / cfg.partitions;
    assert (p.index + 1) * Size(cfg) == p.index * Size(cfg) + Size(cfg);
  }

  /** A worker whose durable assignment names another key, range or digest writes nothing. */
  lemma MismatchWritesNothing(cfg: Config, st: State, p: nat)
    requires ConfigOk(cfg) && st.live.Some? && p < |st.plan|
    requires var e := st.plan[p];
      || e.key != "partition-" + Padded(e.index, 4) || e.start != e.index * (cfg.rows / cfg.partitions) + 1
      || e.end != (e.index + 1) * (cfg.rows / cfg.partitions) || e.digest != st.live.value.digest
    ensures Step(cfg, st, Work(p)) == st
  {
    hide Padded, NoOverflow, Upserted;
    assert Size(cfg) == cfg.rows / cfg.partitions;
    var i := st.plan[p].index;
    assert (i + 1) * Size(cfg) == i * Size(cfg) + Size(cfg);
  }

  /** Nor does one whose range holds a payload that overflows when tripled or when seven is added. */
  lemma OverflowWritesNothing(cfg: Config, st: State, p: nat, id: int)
    requires ConfigOk(cfg) && st.live.Some? && p < |st.plan| && 1 <= id <= |st.source|
    requires st.plan[p].start <= id <= st.plan[p].end
    requires var tripled := (st.source[id - 1] as int) * 3;
      tripled < I64_MIN || tripled > I64_MAX || tripled + 7 > I64_MAX
    ensures Step(cfg, st, Work(p)) == st
  {
    hide Padded, Upserted, Expected;
    assert Selected(st.plan[p], st.source, id);
  }

  function NewPlan(cfg: Config, digest: string): seq<Partition>
    requires ConfigOk(cfg)
  {
    seq(cfg.partitions, i requires 0 <= i => EntryOf(AssignmentOf(i, Size(cfg)), digest).(completed := false))
  }

  function Run(cfg: Config, source: Content, actions: seq<Action>): State
    requires ConfigOk(cfg)
  {
    if actions == [] then Fresh(source)
    else Step(cfg, Run(cfg, source, actions[..|actions| - 1]), actions[|actions| - 1])
  }

  // ----------------------------------------------------------------- the history --

  /** The source as it was when the plan was made. */
  function Planned(cfg: Config, source: Content, actions: seq<Action>): Content
    requires ConfigOk(cfg)
  {
    if actions == [] then source
    else
      var st := Run(cfg, source, actions[..|actions| - 1]);
      if actions[|actions| - 1].Launch? && st.latest == NotLaunched then st.source
      else Planned(cfg, source, actions[..|actions| - 1])
  }

  /** For each partition, the source as it was at its last write that went through. */
  type Writes = seq<Option<Content>>

  function Noted(cfg: Config, writes: Writes, st: State, a: Action): Writes
    requires ConfigOk(cfg)
  {
    if a.Work? && a.p < |writes| && TakesEffect(cfg, st, a.p) then writes[a.p := Some(st.source)] else writes
  }

  function History(cfg: Config, source: Content, actions: seq<Action>): (w: Writes)
    requires ConfigOk(cfg)
    ensures |w| == cfg.partitions
  {
    if actions == [] then seq(cfg.partitions, _ => None)
    else Noted(cfg, History(cfg, source, actions[..|actions| - 1]), Run(cfg, source, actions[..|actions| - 1]), actions[|actions| - 1])
  }

  // --------------------------------------------------------------- the invariant --

  function First(cfg: Config, p: nat): int
    requires ConfigOk(cfg)
  {
    p * Size(cfg) + 1
  }

  function Last(cfg: Config, p: nat): int
    requires ConfigOk(cfg)
  {
    p * Size(cfg) + Size(cfg)
  }

  predicate InRange(cfg: Config, p: nat, id: int)
    requires ConfigOk(cfg)
  {
    First(cfg, p) <= id <= Last(cfg, p)
  }

  /** Partition p owns all its rows, each as content c projects it. */
  ghost predicate OwnsAll(cfg: Config, t: Table, c: Content, p: nat)
    requires ConfigOk(cfg) && |c| == cfg.rows && p < cfg.partitions
  {
    forall id: int | InRange(cfg, p, id) ::
      1 <= id <= |c| && id in t && t[id] == Row(Projected(c[id - 1]), PartitionKey(p))
  }

  ghost predicate OwnsNone(cfg: Config, t: Table, p: nat)
    requires ConfigOk(cfg)
  {
    forall id: int | InRange(cfg, p, id) :: id !in t
  }

  /** The plan is the expected one for some digest, whatever has completed. */
  ghost predicate PlanOf(cfg: Config, plan: seq<Partition>, digest: string)
    requires ConfigOk(cfg)
  {
    && |plan| == cfg.partitions
    && forall i | 0 <= i < |plan| :: plan[i].(completed := true) == EntryOf(AssignmentOf(i, Size(cfg)), digest)
  }

  /** A partition never written owns nothing; a written one owns all its rows, projected from one content. */
  ghost predicate PartitionOk(cfg: Config, st: State, last: Option<Content>, p: nat)
    requires ConfigOk(cfg) && p < cfg.partitions && |st.plan| == cfg.partitions
  {
    match last
    case None => OwnsNone(cfg, st.table, p) && !st.plan[p].completed && (st.live.Some? ==> p !in st.live.value.written)
    case Some(c) => |c| == cfg.rows && OwnsAll(cfg, st.table, c, p)
  }

  /** c is the content the plan was made for. */
  ghost predicate Recorded(cfg: Config, plan: seq<Partition>, c: Content)
    requires ConfigOk(cfg)
  {
    |c| == cfg.rows && PlanOf(cfg, plan, DigestOf(cfg, c))
  }

  ghost predicate Invariant(cfg: Config, st: State, planned: Content, writes: Writes)
    requires ConfigOk(cfg)
  {
    && |st.source| == cfg.rows && |writes| == cfg.partitions
    && (forall id | id in st.table :: 1 <= id <= cfg.rows)
    && (st.latest == NotLaunched ==>
          st.plan == [] && st.live == None && st.table == map[] && forall p | 0 <= p < cfg.partitions :: writes[p] == None)
    && (st.latest != NotLaunched ==>
          Recorded(cfg, st.plan, planned) && forall p | 0 <= p < cfg.partitions :: PartitionOk(cfg, st, writes[p], p))
  }

  lemma RangesDisjoint(cfg: Config, p: nat, q: nat, id: int)
    requires ConfigOk(cfg) && p != q && InRange(cfg, p, id)
    ensures !InRange(cfg, q, id)
  {
    if p < q { RangeFits(p, q, Size(cfg)); } else { RangeFits(q, p, Size(cfg)); }
  }

  lemma RangeInSource(cfg: Config, p: nat)
    requires ConfigOk(cfg) && p < cfg.partitions
    ensures 1 <= First(cfg, p) <= Last(cfg, p) <= cfg.rows
  {
    RangeFits(p, cfg.partitions, Size(cfg));
  }

  lemma EntryRange(cfg: Config, plan: seq<Partition>, c: Content, p: nat)
    requires ConfigOk(cfg) && Recorded(cfg, plan, c) && p < cfg.partitions
    ensures plan[p].key == PartitionKey(p) && plan[p].start == First(cfg, p) && plan[p].end == Last(cfg, p)
    ensures Expected(Size(cfg), plan[p], DigestOf(cfg, c)) && plan[p].digest == DigestOf(cfg, c)
  {
    hide PartitionKey, DigestOf, Size;
    assert plan[p].(completed := true) == EntryOf(AssignmentOf(p, Size(cfg)), DigestOf(cfg, c));
  }

  lemma UpsertOwns(cfg: Config, t: Table, c: Content, entry: Partition, p: nat)
    requires ConfigOk(cfg) && |c| == cfg.rows && p < cfg.partitions
    requires entry.key == PartitionKey(p) && entry.start == First(cfg, p) && entry.end == Last(cfg, p)
    ensures OwnsAll(cfg, Upserted(t, c, entry), c, p)
    ensures forall id :: id in Upserted(t, c, entry) <==> id in t || InRange(cfg, p, id)
    ensures forall id | id in t && !InRange(cfg, p, id) :: Upserted(t, c, entry)[id] == t[id]
  {
    hide PartitionKey, Size;
    RangeInSource(cfg, p);
    forall id: int | InRange(cfg, p, id)
      ensures id in Upserted(t, c, entry) && Upserted(t, c, entry)[id] == Row(Projected(c[id - 1]), PartitionKey(p))
    {
      assert Selected(entry, c, id);
    }
  }

  /** Replaying a partition whose rows are all right changes nothing at all. */
  lemma ReplayChangesNothing(cfg: Config, t: Table, c: Content, entry: Partition, p: nat)
    requires ConfigOk(cfg) && |c| == cfg.rows && p < cfg.partitions && OwnsAll(cfg, t, c, p)
    requires entry.key == PartitionKey(p) && entry.start == First(cfg, p) && entry.end == Last(cfg, p)
    ensures Upserted(t, c, entry) == t
  {
    hide PartitionKey, Size;
    UpsertOwns(cfg, t, c, entry, p);
  }

  lemma WorkInvariant(cfg: Config, st: State, planned: Content, writes: Writes, p: nat)
    requires ConfigOk(cfg) && Invariant(cfg, st, planned, writes)
    ensures Invariant(cfg, Step(cfg, st, Work(p)), planned, Noted(cfg, writes, st, Work(p)))
  {
    hide PartitionKey, DigestOf, Upserted, NoOverflow, Size, Expected;
    var next := Step(cfg, st, Work(p));
    if TakesEffect(cfg, st, p) {
      EntryRange(cfg, st.plan, planned, p);
      UpsertOwns(cfg, st.table, st.source, st.plan[p], p);
      RangeInSource(cfg, p);
      forall q | 0 <= q < cfg.partitions ensures PartitionOk(cfg, next, Noted(cfg, writes, st, Work(p))[q], q) {
        assert PartitionOk(cfg, st, writes[q], q);
        if q != p && writes[q].Some? { OthersKept(cfg, st.table, next.table, writes[q].value, p, q); }
        if q != p && writes[q].None? { OthersKept(cfg, st.table, next.table, st.source, p, q); }
      }
    }
  }

  lemma OthersKept(cfg: Config, t: Table, t': Table, c: Content, p: nat, q: nat)
    requires ConfigOk(cfg) && |c| == cfg.rows && p < cfg.partitions && q < cfg.partitions && p != q
    requires forall id :: id in t' <==> id in t || InRange(cfg, p, id)
    requires forall id | id in t && !InRange(cfg, p, id) :: t'[id] == t[id]
    ensures OwnsAll(cfg, t, c, q) ==> OwnsAll(cfg, t', c, q)
    ensures OwnsNone(cfg, t, q) ==> OwnsNone(cfg, t', q)
  {
    hide InRange, PartitionKey;
    forall id: int | InRange(cfg, q, id) ensures !InRange(cfg, p, id) {
      RangesDisjoint(cfg, q, p, id);
    }
  }

  lemma LaunchInvariant(cfg: Config, st: State, planned: Content, writes: Writes)
    requires ConfigOk(cfg) && Invariant(cfg, st, planned, writes)
    ensures Invariant(cfg, Step(cfg, st, Launch), if st.latest == NotLaunched then st.source else planned, writes)
  {
    hide PartitionKey, DigestOf, Size, OwnsAll;
    var next := Step(cfg, st, Launch);
    if next != st {
      forall q | 0 <= q < cfg.partitions && st.latest != NotLaunched ensures PartitionOk(cfg, next, writes[q], q) {
        assert PartitionOk(cfg, st, writes[q], q);
      }
    }
  }

  lemma MarkInvariant(cfg: Config, st: State, planned: Content, writes: Writes, p: nat)
    requires ConfigOk(cfg) && Invariant(cfg, st, planned, writes)
    ensures Invariant(cfg, Step(cfg, st, MarkCompleted(p)), planned, writes)
  {
    hide PartitionKey, DigestOf, Size, OwnsAll, OwnsNone;
    var next := Step(cfg, st, MarkCompleted(p));
    if next != st {
      forall q | 0 <= q < cfg.partitions ensures PartitionOk(cfg, next, writes[q], q) {
        assert PartitionOk(cfg, st, writes[q], q);
      }
    }
  }

  lemma QuietInvariant(cfg: Config, st: State, planned: Content, writes: Writes, a: Action)
    requires ConfigOk(cfg) && Invariant(cfg, st, planned, writes) && (a.EndRun? || a.Kill? || a.Recover? || a.Mutate?)
    ensures Invariant(cfg, Step(cfg, st, a), planned, writes)
  {
    hide PartitionKey, DigestOf, Size, OwnsAll, OwnsNone, RecoveryAccepted;
    var next := Step(cfg, st, a);
    forall q | 0 <= q < cfg.partitions && st.latest != NotLaunched ensures PartitionOk(cfg, next, writes[q], q) {
      assert PartitionOk(cfg, st, writes[q], q);
    }
    assert a.Recover? && next != st ==> st.latest != NotLaunched by { RunningOnly(cfg, st); }
  }

  lemma RunningOnly(cfg: Config, st: State)
    requires ConfigOk(cfg)
    ensures RecoveryAccepted(cfg, st.plan, st.latest, |st.source|, DigestOf(cfg, st.source)) ==> st.latest == Running
  {
  }

  /** The invariant holds of every run, mutations of the source included. */
  lemma {:induction false} RunInvariant(cfg: Config, source: Content, actions: seq<Action>)
    requires ConfigOk(cfg) && |source| == cfg.rows
    ensures Invariant(cfg, Run(cfg, source, actions), Planned(cfg, source, actions), History(cfg, source, actions))
    decreases |actions|
  {
    hide Invariant, Step, TakesEffect;
    if actions == [] {
      Start(cfg, source);
    } else {
      var before := actions[..|actions| - 1];
      var st, planned, writes := Run(cfg, source, before), Planned(cfg, source, before), History(cfg, source, before);
      var a := actions[|actions| - 1];
      RunInvariant(cfg, source, before);
      match a
      case Launch => LaunchInvariant(cfg, st, planned, writes);
      case Work(p) => WorkInvariant(cfg, st, planned, writes, p);
      case MarkCompleted(p) => MarkInvariant(cfg, st, planned, writes, p);
      case _ => QuietInvariant(cfg, st, planned, writes, a);
    }
  }

  lemma Start(cfg: Config, source: Content)
    requires ConfigOk(cfg) && |source| == cfg.rows
    ensures Invariant(cfg, Fresh(source), source, History(cfg, source, []))
  {
  }

  // ---------------------------------------------------------------- main results --

  /** c and d hold the same rows for partition p. */
  ghost predicate Agrees(cfg: Config, c: Content, d: Content, p: nat)
    requires ConfigOk(cfg)
  {
    forall id: int | InRange(cfg, p, id) :: 1 <= id <= |c| && id <= |d| && c[id - 1] == d[id - 1]
  }

  /** A partition that owns all its rows of one content owns those of another exactly when the two agree on it. */
  lemma OwnsExactly(cfg: Config, t: Table, c: Content, d: Content, p: nat)
    requires ConfigOk(cfg) && |c| == cfg.rows == |d| && p < cfg.partitions && OwnsAll(cfg, t, c, p)
    ensures OwnsAll(cfg, t, d, p) <==> Agrees(cfg, c, d, p)
  {
    hide PartitionKey, Size;
    if OwnsAll(cfg, t, d, p) {
      forall id: int | InRange(cfg, p, id) ensures c[id - 1] == d[id - 1] {
        assert t[id] == Row(Projected(c[id - 1]), PartitionKey(p)) == Row(Projected(d[id - 1]), PartitionKey(p));
      }
    }
  }

  /** What one write does under a source that may have changed since the run computed its digest: the partition then
      owns the rows the plan was made for exactly when its part of the source is still what it was. */
  lemma WorkOwnsExactly(cfg: Config, st: State, planned: Content, p: nat)
    requires ConfigOk(cfg) && Recorded(cfg, st.plan, planned) && |st.source| == cfg.rows && p < cfg.partitions
    requires st.live.Some? && st.live.value.digest == DigestOf(cfg, planned) && !st.plan[p].completed
    requires NoOverflow(st.source, st.plan[p])
    ensures OwnsAll(cfg, Step(cfg, st, Work(p)).table, planned, p) <==> Agrees(cfg, st.source, planned, p)
  {
    hide PartitionKey, DigestOf, NoOverflow, Size, Upserted, Expected, Agrees;
    EntryRange(cfg, st.plan, planned, p);
    UpsertOwns(cfg, st.table, st.source, st.plan[p], p);
    OwnsExactly(cfg, Step(cfg, st, Work(p)).table, st.source, planned, p);
  }

  /** After any kills, restarts, recoveries and mutations, under live runs too: a partition owns none of its rows, or
      all of them as one content projects them, the source at its last write; these are the rows the plan was made for
      exactly when that content agrees with the planned one on the partition; and a completed partition was written. */
  lemma PartitionsAreAtomic(cfg: Config, source: Content, actions: seq<Action>, p: nat)
    requires ConfigOk(cfg) && |source| == cfg.rows && p < cfg.partitions && Run(cfg, source, actions).latest != NotLaunched
    ensures var st, planned := Run(cfg, source, actions), Planned(cfg, source, actions);
      Recorded(cfg, st.plan, planned) &&
      match History(cfg, source, actions)[p]
      case None => OwnsNone(cfg, st.table, p) && !st.plan[p].completed
      case Some(c) => |c| == cfg.rows && OwnsAll(cfg, st.table, c, p) && (OwnsAll(cfg, st.table, planned, p) <==> Agrees(cfg, c, planned, p))
  {
    hide Run, History, Planned, OwnsAll, OwnsNone, PlanOf, DigestOf, Agrees;
    RunInvariant(cfg, source, actions);
    var st, planned, writes := Run(cfg, source, actions), Planned(cfg, source, actions), History(cfg, source, actions);
    assert PlanOf(cfg, st.plan, DigestOf(cfg, planned));
    PlanLength(cfg, st.plan, DigestOf(cfg, planned));
    assert PartitionOk(cfg, st, writes[p], p);
    if writes[p].Some? { OwnsExactly(cfg, st.table, writes[p].value, planned, p); }
  }

  lemma PlanLength(cfg: Config, plan: seq<Partition>, digest: string)
    requires ConfigOk(cfg) && PlanOf(cfg, plan, digest)
    ensures |plan| == cfg.partitions
  {
  }

  /** Once every partition has completed the destination holds exactly the source's ids, each row labelled with its
      owner and projected from the source at its owner's last write; it is the planned row exactly when that source row
      was the planned one. */
  lemma CompletedIsExact(cfg: Config, source: Content, actions: seq<Action>, id: int)
    requires ConfigOk(cfg) && |source| == cfg.rows
    requires var st := Run(cfg, source, actions); st.latest != NotLaunched && forall p | p in st.plan :: p.completed
    ensures var st, planned, writes := Run(cfg, source, actions), Planned(cfg, source, actions), History(cfg, source, actions);
      && (id in st.table <==> 1 <= id <= cfg.rows)
      && (1 <= id <= cfg.rows ==>
            var p := Owner(id, Size(cfg));
            && p < cfg.partitions && writes[p].Some? && |writes[p].value| == cfg.rows == |planned|
            && st.table[id].value == (writes[p].value[id - 1] as int) * 3 + 7 && st.table[id].key == "partition-" + Padded(p, 4)
            && st.table[id] == Row(Projected(writes[p].value[id - 1]), PartitionKey(p))
            && (st.table[id] == Row(Projected(planned[id - 1]), PartitionKey(p)) <==> writes[p].value[id - 1] == planned[id - 1]))
  {
    hide Run, History, Planned, DigestOf, Padded;
    RunInvariant(cfg, source, actions);
    var st := Run(cfg, source, actions);
    if 1 <= id <= cfg.rows {
      var p := Owner(id, Size(cfg));
      Tiles(cfg.rows, cfg.partitions, 1, id, p);
      assert PartitionOk(cfg, st, History(cfg, source, actions)[p], p);
      assert st.plan[p] in st.plan;
      assert InRange(cfg, p, id);
    }
  }

  /** What a write that went through projected did not overflow. */
  lemma {:induction false} WrittenFits(cfg: Config, source: Content, actions: seq<Action>, p: nat)
    requires ConfigOk(cfg) && |source| == cfg.rows && p < cfg.partitions && History(cfg, source, actions)[p].Some?
    ensures var c := History(cfg, source, actions)[p].value;
      |c| == cfg.rows && forall id: int | InRange(cfg, p, id) :: 1 <= id <= |c| && ProjectionFits(c[id - 1])
    decreases |actions|
  {
    var before, a := actions[..|actions| - 1], actions[|actions| - 1];
    var st := Run(cfg, source, before);
    if a == Work(p) && TakesEffect(cfg, st, p) {
      RunInvariant(cfg, source, before);
      TakesRange(cfg, st, Planned(cfg, source, before), History(cfg, source, before), p);
    } else {
      hide ProjectionFits, Run, InRange;
      WrittenFits(cfg, source, before, p);
    }
  }

  lemma TakesRange(cfg: Config, st: State, planned: Content, writes: Writes, p: nat)
    requires ConfigOk(cfg) && Invariant(cfg, st, planned, writes) && p < cfg.partitions && TakesEffect(cfg, st, p)
    ensures |st.source| == cfg.rows
    ensures forall id: int | InRange(cfg, p, id) :: 1 <= id <= |st.source| && ProjectionFits(st.source[id - 1])
  {
    hide PartitionKey, DigestOf, Size, ProjectionFits, PartitionOk;
    EntryRange(cfg, st.plan, planned, p);
    RangeInSource(cfg, p);
    forall id: int | InRange(cfg, p, id) ensures Selected(st.plan[p], st.source, id) { }
  }

  /** The source changes only while no run is live. */
  ghost predicate MutatedBetweenRuns(cfg: Config, source: Content, actions: seq<Action>)
    requires ConfigOk(cfg)
  {
    forall i | 0 <= i < |actions| && actions[i].Mutate? :: Run(cfg, source, actions[..i]).live.None?
  }

  /** Every write that went through saw the planned content, and a live digest describes the source. */
  ghost predicate AsPlanned(cfg: Config, st: State, planned: Content, writes: Writes)
    requires ConfigOk(cfg)
  {
    && (forall p | 0 <= p < |writes| :: writes[p] == None || writes[p] == Some(planned))
    && (st.live.Some? ==> st.live.value.digest == DigestOf(cfg, st.source))
  }

  lemma AsPlannedStep(cfg: Config, st: State, planned: Content, writes: Writes, a: Action)
    requires ConfigOk(cfg) && Injective(cfg) && Invariant(cfg, st, planned, writes) && AsPlanned(cfg, st, planned, writes)
    requires a.Mutate? ==> st.live.None?
    ensures AsPlanned(cfg, Step(cfg, st, a), if a.Launch? && st.latest == NotLaunched then st.source else planned, Noted(cfg, writes, st, a))
  {
    hide Invariant, Expected, NoOverflow, DigestOf, RecoveryAccepted, Upserted, NewPlan;
    if a.Work? && TakesEffect(cfg, st, a.p) { LiveIsPlanned(cfg, st, planned, writes, a.p); }
    if a.Launch? && st.latest == NotLaunched { NothingWritten(cfg, st, planned, writes); }
  }

  /** Then every write that went through saw the planned content. */
  lemma {:induction false} QuietRunsArePlanned(cfg: Config, source: Content, actions: seq<Action>)
    requires ConfigOk(cfg) && Injective(cfg) && |source| == cfg.rows && MutatedBetweenRuns(cfg, source, actions)
    ensures AsPlanned(cfg, Run(cfg, source, actions), Planned(cfg, source, actions), History(cfg, source, actions))
    decreases |actions|
  {
    hide AsPlanned, Step, Noted, Invariant;
    if actions == [] {
      assert AsPlanned(cfg, Fresh(source), source, History(cfg, source, [])) by { PlannedStart(cfg, source); }
    } else {
      var before := actions[..|actions| - 1];
      forall i | 0 <= i < |before| && before[i].Mutate? ensures Run(cfg, source, before[..i]).live.None? {
        assert before[..i] == actions[..i];
      }
      QuietRunsArePlanned(cfg, source, before);
      RunInvariant(cfg, source, before);
      AsPlannedStep(cfg, Run(cfg, source, before), Planned(cfg, source, before), History(cfg, source, before), actions[|actions| - 1]);
    }
  }

  lemma PlannedStart(cfg: Config, source: Content)
    requires ConfigOk(cfg)
    ensures AsPlanned(cfg, Fresh(source), source, History(cfg, source, []))
  {
  }

  /** So each partition owns none or all of its planned rows, and all of them once it has completed. */
  lemma QuietPartitions(cfg: Config, source: Content, actions: seq<Action>, p: nat)
    requires ConfigOk(cfg) && Injective(cfg) && |source| == cfg.rows && MutatedBetweenRuns(cfg, source, actions)
    requires p < cfg.partitions && Run(cfg, source, actions).latest != NotLaunched
    ensures var st, planned := Run(cfg, source, actions), Planned(cfg, source, actions);
      && Recorded(cfg, st.plan, planned)
      && (OwnsAll(cfg, st.table, planned, p) || OwnsNone(cfg, st.table, p))
      && (st.plan[p].completed ==> OwnsAll(cfg, st.table, planned, p))
  {
    hide Run, History, Planned, OwnsAll, OwnsNone, DigestOf, Agrees;
    PartitionsAreAtomic(cfg, source, actions, p);
    QuietRunsArePlanned(cfg, source, actions);
  }

  lemma QuietCompletedIsExact(cfg: Config, source: Content, actions: seq<Action>, id: int)
    requires ConfigOk(cfg) && Injective(cfg) && |source| == cfg.rows && MutatedBetweenRuns(cfg, source, actions)
    requires var st := Run(cfg, source, actions); st.latest != NotLaunched && forall p | p in st.plan :: p.completed
    ensures var st, planned := Run(cfg, source, actions), Planned(cfg, source, actions);
      && (id in st.table <==> 1 <= id <= cfg.rows)
      && (1 <= id <= cfg.rows ==>
            |planned| == cfg.rows && st.table[id] == Row(Projected(planned[id - 1]), PartitionKey(Owner(id, Size(cfg)))))
  {
    hide Run, History, Planned, DigestOf, PartitionKey, Projected;
    CompletedIsExact(cfg, source, actions, id);
    QuietRunsArePlanned(cfg, source, actions);
  }

  lemma NothingWritten(cfg: Config, st: State, planned: Content, writes: Writes)
    requires ConfigOk(cfg) && Invariant(cfg, st, planned, writes) && st.latest == NotLaunched
    ensures forall p | 0 <= p < |writes| :: writes[p] == None
  {
  }

  /** A live run whose digest still describes the source works on the very content the plan was made for. */
  lemma LiveIsPlanned(cfg: Config, st: State, planned: Content, writes: Writes, p: nat)
    requires ConfigOk(cfg) && Injective(cfg) && Invariant(cfg, st, planned, writes)
    requires TakesEffect(cfg, st, p) && st.live.value.digest == DigestOf(cfg, st.source)
    ensures planned == st.source
  {
    hide PartitionKey, DigestOf, NoOverflow, Size, PartitionOk;
    EntryRange(cfg, st.plan, planned, p);
    DigestIdentifies(cfg, planned, st.source);
  }

  /** Recovery is refused as soon as one recorded digest differs from the live source's, and when the source is the
      recorded one again it is allowed: it succeeds exactly when the source holds the planned content. */
  lemma RecoveryFollowsSource(cfg: Config, source: Content, actions: seq<Action>)
    requires ConfigOk(cfg) && Injective(cfg) && |source| == cfg.rows
    requires var st := Run(cfg, source, actions); st.latest == Running && st.live.None?
    ensures var st, planned := Run(cfg, source, actions), Planned(cfg, source, actions);
      Recorded(cfg, st.plan, planned) && (Step(cfg, st, Recover).latest == Failed <==> st.source == planned)
  {
    hide Run, Planned, History, PartitionKey, DigestOf, Size, OwnsAll, OwnsNone;
    RunInvariant(cfg, source, actions);
    var st, planned := Run(cfg, source, actions), Planned(cfg, source, actions);
    DigestIdentifies(cfg, st.source, planned);
    SizePositive(cfg);
    assert st.plan[0] in st.plan;
    forall p | p in st.plan ensures Recoverable(cfg, p, DigestOf(cfg, st.source)) <==> DigestOf(cfg, st.source) == DigestOf(cfg, planned) {
      var i :| 0 <= i < |st.plan| && st.plan[i] == p;
      assert p.(completed := true) == EntryOf(AssignmentOf(i, Size(cfg)), DigestOf(cfg, planned));
    }
  }

  lemma SizePositive(cfg: Config)
    requires ConfigOk(cfg)
    ensures cfg.partitions > 0
  {
  }

  // ------------------------------------------------------------------- progress --

  function After(cfg: Config, st: State, actions: seq<Action>): State
    requires ConfigOk(cfg)
    decreases |actions|
  {
    if actions == [] then st else After(cfg, Step(cfg, st, actions[0]), actions[1..])
  }

  lemma AfterCons(cfg: Config, st: State, a: Action, rest: seq<Action>)
    requires ConfigOk(cfg)
    ensures After(cfg, st, [a] + rest) == After(cfg, Step(cfg, st, a), rest)
  {
    assert ([a] + rest)[1..] == rest;
  }

  /** A run whose source is the planned one, with the partitions below p done. */
  ghost predicate Underway(cfg: Config, st: State, p: nat)
    requires ConfigOk(cfg)
  {
    && Recorded(cfg, st.plan, st.source) && st.live.Some? && st.live.value.digest == DigestOf(cfg, st.source)
    && p <= cfg.partitions && (forall q | 0 <= q < p :: st.plan[q].completed)
    && (forall q | 0 <= q < cfg.partitions :: NoOverflow(st.source, st.plan[q]))
  }

  lemma WorkDone(cfg: Config, st: State, p: nat)
    requires ConfigOk(cfg) && Underway(cfg, st, p) && p < cfg.partitions && p < |st.plan| && !st.plan[p].completed
    ensures Step(cfg, st, Work(p)) ==
      st.(table := Upserted(st.table, st.source, st.plan[p]), live := Some(st.live.value.(written := st.live.value.written + {p})))
  {
    hide PartitionKey, DigestOf, Upserted, Size, Expected, NoOverflow;
    EntryRange(cfg, st.plan, st.source, p);
  }

  lemma PartitionDone(cfg: Config, st: State, p: nat)
    requires ConfigOk(cfg) && Underway(cfg, st, p) && p < cfg.partitions && p < |st.plan| && !st.plan[p].completed
    ensures var next := Step(cfg, Step(cfg, st, Work(p)), MarkCompleted(p));
      Underway(cfg, next, p + 1) && next.source == st.source
  {
    WorkDone(cfg, st, p);
    var a := Step(cfg, st, Work(p));
    var b := Step(cfg, a, MarkCompleted(p));
    assert b == a.(plan := a.plan[p := a.plan[p].(completed := true)]);
    hide Step, NoOverflow, Upserted, DigestOf, Size, PartitionKey;
    forall q | 0 <= q < cfg.partitions ensures NoOverflow(b.source, b.plan[q]) {
      assert NoOverflow(st.source, st.plan[q]);
      CompletionIrrelevant(st.source, st.plan[q]);
    }
  }

  lemma CompletionIrrelevant(source: Content, p: Partition)
    ensures NoOverflow(source, p.(completed := true)) == NoOverflow(source, p)
  {
    forall id: int ensures Selected(p.(completed := true), source, id) == Selected(p, source, id) {}
  }

  lemma UnderwayFacts(cfg: Config, st: State, p: nat)
    requires ConfigOk(cfg) && Underway(cfg, st, p)
    ensures |st.plan| == cfg.partitions >= p && st.live.Some?
    ensures p == cfg.partitions ==> forall q | 0 <= q < |st.plan| :: st.plan[q].completed
    ensures p < cfg.partitions && st.plan[p].completed ==> Underway(cfg, st, p + 1)
  {
    hide NoOverflow, DigestOf, Size, PartitionKey;
  }

  /** Left alone, a run over the planned source completes the partitions that are left and then the job. */
  lemma {:induction false} RunFinishes(cfg: Config, st: State, p: nat) returns (actions: seq<Action>)
    requires ConfigOk(cfg) && Underway(cfg, st, p)
    ensures After(cfg, st, actions).latest == Completed && After(cfg, st, actions).source == st.source
    decreases cfg.partitions - p
  {
    UnderwayFacts(cfg, st, p);
    hide Underway, Step, After;
    if p == cfg.partitions {
      actions := [EndRun] + [];
      AfterCons(cfg, st, EndRun, []);
      RunEnds(cfg, st);
    } else if st.plan[p].completed {
      actions := RunFinishes(cfg, st, p + 1);
    } else {
      PartitionDone(cfg, st, p);
      var a := Step(cfg, st, Work(p));
      var rest := RunFinishes(cfg, Step(cfg, a, MarkCompleted(p)), p + 1);
      actions := [Work(p)] + ([MarkCompleted(p)] + rest);
      AfterCons(cfg, st, Work(p), [MarkCompleted(p)] + rest);
      AfterCons(cfg, a, MarkCompleted(p), rest);
    }
  }

  lemma RunEnds(cfg: Config, st: State)
    requires ConfigOk(cfg) && st.live.Some? && forall q | 0 <= q < |st.plan| :: st.plan[q].completed
    ensures var end := After(cfg, Step(cfg, st, EndRun), []); end.latest == Completed && end.source == st.source
  {
  }

  /** After a kill over an unchanged source, recovery and one undisturbed run complete the job. */
  lemma KillRecoverFinish(cfg: Config, st: State) returns (actions: seq<Action>)
    requires ConfigOk(cfg) && Recorded(cfg, st.plan, st.source) && st.live.None? && st.latest == Running
    requires forall q | 0 <= q < cfg.partitions :: NoOverflow(st.source, st.plan[q])
    ensures After(cfg, st, actions).latest == Completed && After(cfg, st, actions).source == st.source
  {
    hide NoOverflow, PartitionKey, DigestOf, Size, RecoveryAccepted, After;
    assert Step(cfg, st, Recover) == st.(latest := Failed) by { RecoveryAllowed(cfg, st); }
    var a := st.(latest := Failed);
    var b := Step(cfg, a, Launch);
    assert Underway(cfg, b, 0);
    var rest := RunFinishes(cfg, b, 0);
    actions := [Recover] + ([Launch] + rest);
    AfterCons(cfg, st, Recover, [Launch] + rest);
    AfterCons(cfg, a, Launch, rest);
  }

  lemma RecoveryAllowed(cfg: Config, st: State)
    requires ConfigOk(cfg) && Recorded(cfg, st.plan, st.source) && st.live.None? && st.latest == Running
    ensures Step(cfg, st, Recover) == st.(latest := Failed)
  {
    hide PartitionKey, DigestOf, Size;
    forall p | p in st.plan ensures Recoverable(cfg, p, DigestOf(cfg, st.source)) {
      var i :| 0 <= i < |st.plan| && st.plan[i] == p;
      assert p.(completed := true) == EntryOf(AssignmentOf(i, Size(cfg)), DigestOf(cfg, st.source));
    }
  }
}
