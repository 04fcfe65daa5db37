/** The business check of a partitioned run: the destination compared with the source by counts and by one digest
    (verify_business in postgres-local-partition/src/main.rs). */
module PartitionBusiness {
  import opened Decimal
  import opened PartitionPlan
  import PartitionReplay
  import RowCodec

  /** A destination row of one run name. */
  datatype DestRow = DestRow(id: RowCodec.I64, value: RowCodec.I64, key: string)

  type SourceRow = r: PartitionReplay.Line | I64_MIN <= r.id <= I64_MAX && I64_MIN <= r.payload <= I64_MAX
    witness PartitionReplay.Line(0, 0)

  ghost predicate Injective(hash: string -> string) { forall a, b :: hash(a) == hash(b) ==> a == b }

  /** Queries read in primary key order. */
  ghost predicate InKeyOrder(rows: seq<DestRow>) { forall i, j | 0 <= i < j < |rows| :: rows[i].id < rows[j].id }

  // ------------------------------------------------------------ the hashed text --

  /** What one destination row adds to the digest. */
  function DestText(r: DestRow): string {
    SignedDigits(r.id) + ['|'] + (SignedDigits(r.value) + ['|'] + (r.key + ['\n']))
  }

  function TextOf(rows: seq<DestRow>): string { RowCodec.EncodeAll(DestText, rows) }

  /** A key is free text: nothing keeps line ends out of it. */
  predicate OneLine(r: DestRow) { '\n' !in r.key }

  function ReadDest(s: string): Option<(DestRow, string)> {
    match RowCodec.TakeUntil(s, '|')
    case None => None
    case Some(a) => match RowCodec.TakeUntil(a.1, '|')
      case None => None
      case Some(b) => match RowCodec.TakeUntil(b.1, '\n')
        case None => None
        case Some(c) =>
          var id, value := SignedValue(a.0), SignedValue(b.0);
          if I64_MIN <= id <= I64_MAX && I64_MIN <= value <= I64_MAX then Some((DestRow(id, value, c.0), c.1)) else None
  }

  lemma DestInverts(r: DestRow)
    requires OneLine(r)
    ensures RowCodec.Inverts(ReadDest, DestText, r)
  {
    SignedValueOfDigits(r.id);
    SignedValueOfDigits(r.value);
    hide RowCodec.TakeUntil, SignedDigits, SignedValue;
    forall rest ensures ReadDest(DestText(r) + rest) == Some((r, rest)) {
      var tail := r.key + ['\n'] + rest;
      var middle := SignedDigits(r.value) + ['|'] + tail;
      assert DestText(r) + rest == SignedDigits(r.id) + ['|'] + middle;
      RowCodec.TakeUntilStops(SignedDigits(r.id), '|', middle);
      RowCodec.TakeUntilStops(SignedDigits(r.value), '|', tail);
      RowCodec.TakeUntilStops(r.key, '\n', rest);
    }
  }

  function Breaks(s: string): nat { multiset(s)['\n'] }

  lemma BreaksOfOne(r: DestRow)
    ensures Breaks(DestText(r)) >= 1
    ensures Breaks(DestText(r)) == 1 <==> OneLine(r)
  {
    var a, b := SignedDigits(r.id), SignedDigits(r.value);
    assert '\n' !in a && '\n' !in b;
    assert multiset(['|'])['\n'] == 0 && multiset(['\n'])['\n'] == 1;
    hide SignedDigits;
    assert multiset(DestText(r)) == multiset(a) + multiset(['|']) + (multiset(b) + multiset(['|']) + (multiset(r.key) + multiset(['\n'])));
  }

  /** A text has one line end for each row exactly when no key holds one. */
  lemma {:induction false} BreaksOfAll(rows: seq<DestRow>)
    ensures Breaks(TextOf(rows)) >= |rows|
    ensures Breaks(TextOf(rows)) == |rows| <==> forall r | r in rows :: OneLine(r)
  {
    hide *;
    if rows == [] {
      NoBreaks();
    } else {
      BreaksOfOne(rows[0]);
      BreaksOfAll(rows[1..]);
      TextSplits(rows);
      BreaksAdd(DestText(rows[0]), TextOf(rows[1..]));
      assert forall r :: r in rows <==> r == rows[0] || r in rows[1..];
    }
  }

  lemma NoBreaks()
    ensures Breaks(TextOf([])) == 0
  {
  }

  lemma TextSplits(rows: seq<DestRow>)
    requires rows != []
    ensures TextOf(rows) == DestText(rows[0]) + TextOf(rows[1..])
  {
    hide DestText;
  }

  lemma BreaksAdd(a: string, b: string)
    ensures Breaks(a + b) == Breaks(a) + Breaks(b)
  {
  }

  /** Against rows whose keys are single lines, the digest and the count together identify the rows. */
  lemma CountedTextIdentifies(expected: seq<DestRow>, actual: seq<DestRow>)
    requires forall r | r in expected :: OneLine(r)
    requires |expected| == |actual|
    ensures TextOf(expected) == TextOf(actual) <==> expected == actual
  {
    if TextOf(expected) == TextOf(actual) {
      BreaksOfAll(expected);
      BreaksOfAll(actual);
      hide OneLine, DestText, ReadDest;
      forall r | r in expected + actual ensures RowCodec.Inverts(ReadDest, DestText, r) { DestInverts(r); }
      RowCodec.DecodeAllInverts(ReadDest, DestText, expected);
      RowCodec.DecodeAllInverts(ReadDest, DestText, actual);
    }
  }

  /** The digest alone does not: one row whose key holds a line end hashes like any two rows. */
  lemma DigestAloneConfuses(a: DestRow, b: DestRow)
    ensures TextOf([a, b]) == TextOf([a.(key := a.key + ['\n'] + (SignedDigits(b.id) + ['|'] + (SignedDigits(b.value) + ['|'] + b.key)))])
  {
    hide SignedDigits;
    var c := a.(key := a.key + ['\n'] + (SignedDigits(b.id) + ['|'] + (SignedDigits(b.value) + ['|'] + b.key)));
    TextAppends([], a);
    TextAppends([a], b);
    TextAppends([], c);
    assert [] + [a] == [a] && [a] + [b] == [a, b] && [] + [c] == [c] && TextOf([]) == [];
  }

  lemma TextGrows(rows: seq<DestRow>, r: DestRow)
    ensures TextOf(rows + [r]) == TextOf(rows) + DestText(r)
  {
    RowCodec.EncodeAllAppend(DestText, rows, r);
  }

  lemma EmptyText()
    ensures TextOf([]) == []
  {
  }

  /** Each row adds its id, its value and its key, separated by bars and ended by a line end. */
  lemma TextAppends(rows: seq<DestRow>, r: DestRow)
    ensures TextOf(rows + [r]) == TextOf(rows) + (SignedDigits(r.id) + "|" + SignedDigits(r.value) + "|" + r.key + "\n")
  {
    hide SignedDigits;
    RowCodec.EncodeAllAppend(DestText, rows, r);
    assert SignedDigits(r.id) + "|" + SignedDigits(r.value) + "|" + r.key + "\n" == DestText(r);
  }

  // ------------------------------------------------------------- the two streams --

  /** The partition an id falls in; the unsigned subtraction wraps at id 0. */
  function OwnerIndex(id: int, size: nat): Option<nat>
    requires size >= 1
  {
    if id < 0 then None
    else
      var index := (if id == 0 then U64_MAX else id - 1) / size;
      if index > U16_MAX then None else Some(index)
  }

  /** Where the check does not stop with an error: the id is not negative, its partition number fits 16 bits, and neither
      the product nor the sum overflows. */
  predicate Checkable(l: SourceRow, size: nat)
    requires size >= 1
  {
    && l.id >= 0 && (if l.id == 0 then U64_MAX else l.id - 1) / size <= 65_535
    && I64_MIN <= l.payload * 3 && l.payload * 3 + 7 <= I64_MAX
  }

  /** The destination row a source row should have become. */
  function ExpectedRow(l: SourceRow, size: nat): (row: Option<DestRow>)
    requires size >= 1
    ensures row.Some? <==> Checkable(l, size)
  {
    match OwnerIndex(l.id, size)
    case None => None
    case Some(index) =>
      if PartitionReplay.ProjectionFits(l.payload) then Some(DestRow(l.id, l.payload * 3 + 7, PartitionKey(index))) else None
  }

  ghost predicate Expectable(source: seq<SourceRow>, size: nat)
    requires size >= 1
  {
    forall i | 0 <= i < |source| :: Checkable(source[i], size)
  }

  ghost function ExpectedRows(source: seq<SourceRow>, size: nat): (rows: seq<DestRow>)
    requires size >= 1 && Expectable(source, size)
    ensures |rows| == |source| && forall i | 0 <= i < |rows| :: rows[i] == ExpectedRow(source[i], size).value
  {
    seq(|source|, i requires 0 <= i < |source| => ExpectedRow(source[i], size).value)
  }

  lemma ExpectedOneLine(source: seq<SourceRow>, size: nat)
    requires size >= 1 && Expectable(source, size)
    ensures forall r | r in ExpectedRows(source, size) :: OneLine(r)
  {
    forall i | 0 <= i < |source| ensures OneLine(ExpectedRow(source[i], size).value) {
      KeyIsOneLine(OwnerIndex(source[i].id, size).value);
    }
  }

  lemma KeyIsOneLine(index: nat)
    ensures '\n' !in PartitionKey(index)
  {
    hide Padded;
    var digits := Padded(index, 4);
    assert forall c | c in digits :: IsDigit(c);
    assert '\n' !in "partition-";
  }

  lemma ExpectedStep(source: seq<SourceRow>, i: nat, size: nat)
    requires size >= 1 && i < |source| && Expectable(source[..i], size)
    ensures ExpectedRow(source[i], size).None? ==> !Expectable(source, size)
    ensures ExpectedRow(source[i], size).Some? ==>
      && Expectable(source[..i + 1], size)
      && ExpectedRows(source[..i + 1], size) == ExpectedRows(source[..i], size) + [ExpectedRow(source[i], size).value]
  {
    hide ExpectedRow, Checkable;
    assert source[..i + 1] == source[..i] + [source[i]];
  }

  /** One turn of the loop below: the checked arithmetic, in the order it is done. */
  method ExpectRow(l: SourceRow, size: nat) returns (row: Option<DestRow>)
    requires size >= 1
    ensures row == ExpectedRow(l, size)
  {
    hide PartitionKey;
    if l.id < 0 { return None; }
    var index := (if l.id == 0 then U64_MAX else l.id - 1) / size;
    if index > U16_MAX { return None; }
    var tripled := l.payload * 3;
    if tripled < I64_MIN || tripled > I64_MAX { return None; }
    if tripled + 7 > I64_MAX { return None; }
    return Some(DestRow(l.id, tripled + 7, PartitionKey(index)));
  }

  /** `expected_destination_identity` */
  method ExpectedDestinationIdentity(source: seq<SourceRow>, size: nat, hash: string -> string) returns (out: Option<(nat, string)>)
    requires size >= 1
    ensures out.Some? <==> Expectable(source, size)
    ensures out.Some? ==> out.value == (|source|, hash(TextOf(ExpectedRows(source, size))))
  {
    var count: nat, text: string := 0, [];
    assert Expectable(source[..0], size);
    EmptyText();
    hide TextOf, DestText, ExpectedRow, Expectable, Checkable;
    for i := 0 to |source|
      invariant count == i && Expectable(source[..i], size)
      invariant text == TextOf(ExpectedRows(source[..i], size))
    {
      ExpectedStep(source, i, size);
      var row := ExpectRow(source[i], size);
      if row.None? { return None; }
      TextGrows(ExpectedRows(source[..i], size), row.value);
      text := text + DestText(row.value);
      count := count + 1;
    }
    assert source[..|source|] == source;
    return Some((count, hash(text)));
  }

  /** `destination_identity` */
  method DestinationIdentity(rows: seq<DestRow>, hash: string -> string) returns (count: nat, digest: string)
    ensures count == |rows| && digest == hash(TextOf(rows))
  {
    var text: string := [];
    count := 0;
    EmptyText();
    hide *;
    for i := 0 to |rows|
      invariant count == i && text == TextOf(rows[..i])
    {
      assert rows[..i + 1] == rows[..i] + [rows[i]];
      TextGrows(rows[..i], rows[i]);
      text := text + DestText(rows[i]);
      count := count + 1;
    }
    assert rows[..|rows|] == rows;
    digest := hash(text);
  }

  // ------------------------------------------------------------------ the verdict --

  datatype Business = Business(
    sourceRows: nat, destinationRows: nat, distinctIds: nat, missing: nat, extra: nat,
    expectedDigest: string, actualDigest: string, rangesComplete: bool)

  /** `BusinessVerification::passed` */
  predicate Passed(b: Business, rows: nat) {
    && b.sourceRows == rows && b.destinationRows == rows && b.distinctIds == rows && b.missing == 0 && b.extra == 0
    && b.expectedDigest == b.actualDigest && b.rangesComplete
  }

  /** Every destination row is the projection of its source row, under the key of the partition its id falls in. */
  ghost predicate Right(source: seq<SourceRow>, destination: seq<DestRow>, size: nat)
    requires size >= 1
  {
    && |destination| == |source|
    && forall i | 0 <= i < |source| ::
         && destination[i].id == source[i].id >= 0 && destination[i].value == source[i].payload * 3 + 7
         && destination[i].key == "partition-" + Padded((if source[i].id == 0 then U64_MAX else source[i].id - 1) / size, 4)
  }

  /** `verify_business`, after the shape check: it stops with an error exactly when some source row cannot be checked,
      and otherwise passes exactly on a source of the right size whose destination is right, row by row. */
  method VerifyBusiness(source: seq<SourceRow>, destination: seq<DestRow>, rows: nat, partitions: nat, hash: string -> string)
    returns (out: Option<Business>)
    requires rows <= U64_MAX && partitions <= U16_MAX && InKeyOrder(destination) && Injective(hash)
    ensures out.Some? <==> ValidateShape(rows, partitions, 1).Some? && Expectable(source, rows / partitions)
    ensures out.Some? ==> (Passed(out.value, rows) <==> |source| == rows && Right(source, destination, rows / partitions))
  {
    var shape := ValidateShape(rows, partitions, 1);
    if shape.None? { return None; }
    var size := shape.value;
    var expected := ExpectedDestinationIdentity(source, size, hash);
    if expected.None? { return None; }
    var (expectedRows, expectedDigest) := expected.value;
    var destinationRows, actualDigest := DestinationIdentity(destination, hash);
    var sourceIds, ids := set r | r in source :: r.id, set r | r in destination :: r.id;
    var plan := Assignments(rows, partitions);
    if plan.None? { return None; }
    var complete := expectedRows == rows;
    for i := 0 to |plan.value|
      invariant complete == (expectedRows == rows)
    {
      var a := plan.value[i];
      complete := complete && a.index == i && a.start == i * size + 1 && a.end == a.start + size - 1;
    }
    var b := Business(|source|, destinationRows, |ids|, |sourceIds - ids|, |ids - sourceIds|, expectedDigest, actualDigest, complete);
    PassedExactly(source, destination, rows, size, hash, b);
    return Some(b);
  }

  lemma RightExactly(source: seq<SourceRow>, destination: seq<DestRow>, size: nat)
    requires size >= 1 && Expectable(source, size)
    ensures Right(source, destination, size) <==> destination == ExpectedRows(source, size)
  {
    hide Padded;
    forall i | 0 <= i < |source|
      ensures ExpectedRow(source[i], size).value == DestRow(source[i].id, source[i].payload * 3 + 7,
        "partition-" + Padded((if source[i].id == 0 then U64_MAX else source[i].id - 1) / size, 4))
    {
    }
  }

  ghost function Ids(rows: seq<DestRow>): set<int> { set r | r in rows :: r.id }

  lemma {:induction false} IdsAreDistinct(rows: seq<DestRow>)
    requires InKeyOrder(rows)
    ensures |Ids(rows)| == |rows|
  {
    if rows != [] {
      var last, before := rows[|rows| - 1], rows[..|rows| - 1];
      IdsAreDistinct(before);
      assert rows == before + [last];
      assert Ids(rows) == Ids(before) + {last.id};
      assert last.id !in Ids(before);
    } else {
      assert Ids(rows) == {};
    }
  }

  lemma PassedExactly(source: seq<SourceRow>, destination: seq<DestRow>, rows: nat, size: nat, hash: string -> string, b: Business)
    requires size >= 1 && Expectable(source, size) && InKeyOrder(destination) && Injective(hash)
    requires b.sourceRows == |source| && b.destinationRows == |destination| && b.distinctIds == |Ids(destination)|
    requires var ids := set r | r in source :: r.id;
      b.missing == |ids - Ids(destination)| && b.extra == |Ids(destination) - ids|
    requires b.expectedDigest == hash(TextOf(ExpectedRows(source, size))) && b.actualDigest == hash(TextOf(destination))
    requires b.rangesComplete == (|source| == rows)
    ensures Passed(b, rows) <==> |source| == rows && Right(source, destination, size)
  {
    RightExactly(source, destination, size);
    ExpectedOneLine(source, size);
    IdsAreDistinct(destination);
    hide Right, OneLine, ExpectedRow, Checkable, TextOf;
    if |source| == rows == |destination| {
      CountedTextIdentifies(ExpectedRows(source, size), destination);
    }
    if Right(source, destination, size) {
      SameIds(source, destination, size);
      assert Ids(destination) == set r | r in source :: r.id;
    }
  }

  lemma SameIds(source: seq<SourceRow>, destination: seq<DestRow>, size: nat)
    requires size >= 1 && Right(source, destination, size)
    ensures Ids(destination) == set r | r in source :: r.id
  {
    hide Padded;
    forall i | 0 <= i < |source| ensures source[i].id in Ids(destination) { assert destination[i] in destination; }
    forall i | 0 <= i < |source| ensures exists r :: r in source && r.id == destination[i].id { assert source[i] in source; }
  }

  // -------------------------------------------------------------- after a run --

  function SourceOf(c: PartitionReplay.Content): (rows: seq<SourceRow>)
    requires |c| <= I64_MAX
  {
    seq(|c|, i requires 0 <= i < |c| => PartitionReplay.Line(i + 1, c[i]))
  }

  ghost predicate Full(t: PartitionReplay.Table, rows: nat) {
    rows <= I64_MAX && forall id | 1 <= id <= rows :: id in t && PartitionReplay.Fits(t[id].value)
  }

  /** The destination of a run that left one row for each id. */
  ghost function Listed(t: PartitionReplay.Table, rows: nat): (listed: seq<DestRow>)
    requires Full(t, rows)
    ensures |listed| == rows && InKeyOrder(listed)
  {
    seq(rows, i requires 0 <= i < rows => DestRow(i + 1, t[i + 1].value, t[i + 1].key))
  }

  /** Each row was projected from what the source holds now, when its partition was last written. */
  ghost predicate Current(cfg: PartitionReplay.Config, writes: PartitionReplay.Writes, source: PartitionReplay.Content)
    requires PartitionReplay.ConfigOk(cfg)
  {
    forall id | 1 <= id <= |source| :: CurrentAt(cfg, writes, source, id)
  }

  ghost predicate CurrentAt(cfg: PartitionReplay.Config, writes: PartitionReplay.Writes, source: PartitionReplay.Content, id: int)
    requires PartitionReplay.ConfigOk(cfg) && 1 <= id <= |source|
  {
    var p := Owner(id, cfg.rows / cfg.partitions);
    p < |writes| && writes[p].Some? && id <= |writes[p].value| && writes[p].value[id - 1] == source[id - 1]
  }

  /** After any completed run, under live changes of the source too, the check passes exactly when every row's partition
      was last written from what the source holds when the check reads it. */
  lemma CompletedRunPasses(cfg: PartitionReplay.Config, source: PartitionReplay.Content, actions: seq<PartitionReplay.Action>)
    requires PartitionReplay.ConfigOk(cfg) && |source| == cfg.rows
    requires var st := PartitionReplay.Run(cfg, source, actions);
      st.latest != PartitionReplay.NotLaunched && forall p | p in st.plan :: p.completed
    ensures var st, writes := PartitionReplay.Run(cfg, source, actions), PartitionReplay.History(cfg, source, actions);
      var size := cfg.rows / cfg.partitions;
      && Full(st.table, cfg.rows) && |st.source| == cfg.rows
      && (Expectable(SourceOf(st.source), size) && Right(SourceOf(st.source), Listed(st.table, cfg.rows), size)
          <==> Current(cfg, writes, st.source))
  {
    hide PartitionReplay.Run, PartitionReplay.History, PartitionReplay.Planned, PartitionReplay.DigestOf, Padded;
    var st, writes := PartitionReplay.Run(cfg, source, actions), PartitionReplay.History(cfg, source, actions);
    var size := PartitionReplay.Size(cfg);
    PartitionReplay.RunInvariant(cfg, source, actions);
    forall id | 1 <= id <= cfg.rows
      ensures Landed(cfg, st, writes, id)
    {
      RowLanded(cfg, source, actions, id);
    }
    AllLanded(cfg, st, writes);
  }

  /** One id of a completed run: its row is there, projected without overflow from its owner's last write. */
  ghost predicate Landed(cfg: PartitionReplay.Config, st: PartitionReplay.State, writes: PartitionReplay.Writes, id: int)
    requires PartitionReplay.ConfigOk(cfg) && id >= 1
  {
    var p := Owner(id, cfg.rows / cfg.partitions);
    && p < cfg.partitions && p < |writes| && writes[p].Some? && id <= |writes[p].value|
    && PartitionReplay.ProjectionFits(writes[p].value[id - 1])
    && id in st.table && st.table[id].value == (writes[p].value[id - 1] as int) * 3 + 7
    && st.table[id].key == "partition-" + Padded(p, 4)
  }

  lemma RowLanded(cfg: PartitionReplay.Config, source: PartitionReplay.Content, actions: seq<PartitionReplay.Action>, id: int)
    requires PartitionReplay.ConfigOk(cfg) && |source| == cfg.rows && 1 <= id <= cfg.rows
    requires var st := PartitionReplay.Run(cfg, source, actions);
      st.latest != PartitionReplay.NotLaunched && forall p | p in st.plan :: p.completed
    ensures Landed(cfg, PartitionReplay.Run(cfg, source, actions), PartitionReplay.History(cfg, source, actions), id)
  {
    hide PartitionReplay.Run, PartitionReplay.History, PartitionReplay.Planned, PartitionReplay.ProjectionFits, Padded;
    assert PartitionReplay.Size(cfg) == cfg.rows / cfg.partitions;
    PartitionReplay.CompletedIsExact(cfg, source, actions, id);
    var p := Owner(id, cfg.rows / cfg.partitions);
    PartitionReplay.WrittenFits(cfg, source, actions, p);
    Tiles(cfg.rows, cfg.partitions, 1, id, p);
    assert PartitionReplay.InRange(cfg, p, id);
  }

  /** Such a row is right and expected without an error exactly when its payload is still the one it was written from. */
  lemma LandedIsRight(cfg: PartitionReplay.Config, st: PartitionReplay.State, writes: PartitionReplay.Writes, id: int)
    requires PartitionReplay.ConfigOk(cfg) && 1 <= id <= |st.source| && id <= I64_MAX && Landed(cfg, st, writes, id)
    ensures var size, payload := cfg.rows / cfg.partitions, st.source[id - 1];
      (&& ExpectedRow(PartitionReplay.Line(id, payload), size).Some?
       && st.table[id].value == payload * 3 + 7 && st.table[id].key == "partition-" + Padded((id - 1) / size, 4))
      <==> writes[Owner(id, size)].value[id - 1] == payload
  {
    hide Padded;
  }

  lemma AllLanded(cfg: PartitionReplay.Config, st: PartitionReplay.State, writes: PartitionReplay.Writes)
    requires PartitionReplay.ConfigOk(cfg) && |st.source| == cfg.rows
    requires forall id | 1 <= id <= cfg.rows :: Landed(cfg, st, writes, id)
    ensures Full(st.table, cfg.rows)
    ensures var size := cfg.rows / cfg.partitions;
      Expectable(SourceOf(st.source), size) && Right(SourceOf(st.source), Listed(st.table, cfg.rows), size)
      <==> Current(cfg, writes, st.source)
  {
    hide Padded, ExpectedRow, Checkable;
    var size := cfg.rows / cfg.partitions;
    forall id | 1 <= id <= cfg.rows ensures id in st.table && PartitionReplay.Fits(st.table[id].value) {
      assert Landed(cfg, st, writes, id);
    }
    forall id | 1 <= id <= cfg.rows ensures RightAt(cfg, st, id) <==> CurrentAt(cfg, writes, st.source, id) {
      assert Landed(cfg, st, writes, id);
      LandedIsRight(cfg, st, writes, id);
    }
    AllRight(cfg, st);
  }

  ghost predicate RightAt(cfg: PartitionReplay.Config, st: PartitionReplay.State, id: int)
    requires PartitionReplay.ConfigOk(cfg) && 1 <= id <= |st.source| && id <= I64_MAX && id in st.table
  {
    var size, payload := cfg.rows / cfg.partitions, st.source[id - 1];
    && ExpectedRow(PartitionReplay.Line(id, payload), size).Some?
    && st.table[id].value == payload * 3 + 7 && st.table[id].key == "partition-" + Padded((id - 1) / size, 4)
  }

  lemma AllRight(cfg: PartitionReplay.Config, st: PartitionReplay.State)
    requires PartitionReplay.ConfigOk(cfg) && |st.source| == cfg.rows && Full(st.table, cfg.rows)
    ensures var size := cfg.rows / cfg.partitions;
      Expectable(SourceOf(st.source), size) && Right(SourceOf(st.source), Listed(st.table, cfg.rows), size)
      <==> forall id | 1 <= id <= cfg.rows :: RightAt(cfg, st, id)
  {
    hide Padded, ExpectedRow, Checkable;
    var size := cfg.rows / cfg.partitions;
    var rows, listed := SourceOf(st.source), Listed(st.table, cfg.rows);
    if forall id | 1 <= id <= cfg.rows :: RightAt(cfg, st, id) {
      forall i | 0 <= i < cfg.rows ensures RightAt(cfg, st, i + 1) && rows[i] == PartitionReplay.Line(i + 1, st.source[i]) { }
    }
    if Expectable(rows, size) && Right(rows, listed, size) {
      forall id | 1 <= id <= cfg.rows ensures RightAt(cfg, st, id) {
        assert rows[id - 1] == PartitionReplay.Line(id, st.source[id - 1]);
        assert ExpectedRow(rows[id - 1], size).Some? && listed[id - 1].value == rows[id - 1].payload * 3 + 7;
      }
    }
  }
}
