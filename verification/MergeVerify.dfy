/** The streaming merge verifier (verify.rs of postgres-postgres): two streams in id order, one pass. */
module MergeVerify {
  import opened RowCodec

  const MAX_RETAINED := 100

  datatype Field = DisplayName | LoyaltyScore | IsPremium | RowFingerprint

  datatype Mismatch =
    | Missing(id: int)
    | Unexpected(id: int)
    | Differs(id: int, fields: seq<Field>)

  function Rank(f: Field): nat {
    match f case DisplayName => 0 case LoyaltyScore => 1 case IsPremium => 2 case RowFingerprint => 3
  }

  /** `compare`: the differing fields, each once, in declaration order. */
  function Compare(e: ProjectedRow, a: ProjectedRow): (fields: seq<Field>)
    ensures fields == [] <==> e.(customerId := a.customerId) == a
    ensures forall i, j | 0 <= i < j < |fields| :: Rank(fields[i]) < Rank(fields[j])
    ensures DisplayName in fields <==> e.displayName != a.displayName
    ensures LoyaltyScore in fields <==> e.loyaltyScore != a.loyaltyScore
    ensures IsPremium in fields <==> e.isPremium != a.isPremium
    ensures RowFingerprint in fields <==> e.fingerprint != a.fingerprint
  {
    (if e.displayName != a.displayName then [DisplayName] else [])
    + ((if e.loyaltyScore != a.loyaltyScore then [LoyaltyScore] else [])
    + ((if e.isPremium != a.isPremium then [IsPremium] else [])
    + (if e.fingerprint != a.fingerprint then [RowFingerprint] else [])))
  }

  type Rows = seq<ProjectedRow>

  /** What `ORDER BY customer_id` over a primary key yields. */
  ghost predicate Ascending(rows: Rows) {
    forall i, j | 0 <= i < j < |rows| :: rows[i].customerId < rows[j].customerId
  }

  ghost function Ids(rows: Rows): set<int> { set r | r in rows :: r.customerId }

  /** The mismatches the merge meets, in the order it meets them. */
  function Mismatches(expected: Rows, actual: Rows): seq<Mismatch>
    decreases |expected| + |actual|
  {
    if expected == [] && actual == [] then []
    else if actual == [] then [Missing(expected[0].customerId)] + Mismatches(expected[1..], actual)
    else if expected == [] then [Unexpected(actual[0].customerId)] + Mismatches(expected, actual[1..])
    else
      var e, a := expected[0], actual[0];
      if e.customerId == a.customerId then
        (if Compare(e, a) == [] then [] else [Differs(e.customerId, Compare(e, a))]) + Mismatches(expected[1..], actual[1..])
      else if e.customerId < a.customerId then [Missing(e.customerId)] + Mismatches(expected[1..], actual)
      else [Unexpected(a.customerId)] + Mismatches(expected, actual[1..])
  }

  // ------------------------------------------------------- what the list means --

  ghost predicate MissingHere(expected: Rows, actual: Rows, id: int) { id in Ids(expected) && id !in Ids(actual) }

  ghost predicate DiffersHere(expected: Rows, actual: Rows, id: int, fields: seq<Field>) {
    exists e, a :: e in expected && a in actual && e.customerId == id && a.customerId == id && fields == Compare(e, a) && fields != []
  }

  /** m belongs in the report. */
  ghost predicate Belongs(expected: Rows, actual: Rows, m: Mismatch) {
    match m
    case Missing(id) => MissingHere(expected, actual, id)
    case Unexpected(id) => MissingHere(actual, expected, id)
    case Differs(id, fields) => DiffersHere(expected, actual, id, fields)
  }

  ghost predicate Ordered(ms: seq<Mismatch>) { forall i, j | 0 <= i < j < |ms| :: ms[i].id < ms[j].id }

  lemma IdsCons(rows: Rows)
    requires rows != []
    ensures Ids(rows) == {rows[0].customerId} + Ids(rows[1..])
    ensures Ascending(rows) ==> Ascending(rows[1..]) && forall id | id in Ids(rows[1..]) :: rows[0].customerId < id
  {
    assert rows == [rows[0]] + rows[1..];
    if Ascending(rows) {
      forall id | id in Ids(rows[1..]) ensures rows[0].customerId < id {
        var i :| 0 <= i < |rows[1..]| && rows[1..][i].customerId == id;
        assert rows[i + 1].customerId == id;
      }
    }
  }

  lemma MemberCons(rows: Rows)
    requires rows != []
    ensures forall r :: r in rows <==> r == rows[0] || r in rows[1..]
  {
    assert rows == [rows[0]] + rows[1..];
  }

  /** The least id is on one side only. */
  lemma HeadMissing(xs: Rows, ys: Rows)
    requires xs != [] && Ascending(xs) && Ascending(ys) && (ys == [] || xs[0].customerId < ys[0].customerId)
    ensures xs[0].customerId !in Ids(ys) && forall id | id in Ids(ys) :: xs[0].customerId < id
  {
    forall id | id in Ids(ys) ensures xs[0].customerId < id {
      var i :| 0 <= i < |ys| && ys[i].customerId == id;
    }
  }

  lemma BelongsAfterMissing(expected: Rows, actual: Rows, m: Mismatch)
    requires expected != [] && Ascending(expected) && Ascending(actual)
    requires actual == [] || expected[0].customerId < actual[0].customerId
    ensures Belongs(expected, actual, m) <==> m == Missing(expected[0].customerId) || Belongs(expected[1..], actual, m)
  {
    IdsCons(expected);
    MemberCons(expected);
    HeadMissing(expected, actual);
    hide Compare, Ascending;
    if m.Differs? {
      forall e, a | e in expected && a in actual && e.customerId == a.customerId ensures e in expected[1..] {
        assert a.customerId in Ids(actual);
      }
    }
  }

  lemma BelongsAfterUnexpected(expected: Rows, actual: Rows, m: Mismatch)
    requires actual != [] && Ascending(expected) && Ascending(actual)
    requires expected == [] || actual[0].customerId < expected[0].customerId
    ensures Belongs(expected, actual, m) <==> m == Unexpected(actual[0].customerId) || Belongs(expected, actual[1..], m)
  {
    IdsCons(actual);
    MemberCons(actual);
    HeadMissing(actual, expected);
    hide Compare, Ascending;
    if m.Differs? {
      forall e, a | e in expected && a in actual && e.customerId == a.customerId ensures a in actual[1..] {
        assert e.customerId in Ids(expected);
      }
    }
  }

  lemma BelongsAfterBoth(expected: Rows, actual: Rows, m: Mismatch)
    requires expected != [] && actual != [] && Ascending(expected) && Ascending(actual)
    requires expected[0].customerId == actual[0].customerId
    ensures var fields := Compare(expected[0], actual[0]);
      Belongs(expected, actual, m) <==>
        (fields != [] && m == Differs(expected[0].customerId, fields)) || Belongs(expected[1..], actual[1..], m)
  {
    IdsCons(expected);
    IdsCons(actual);
    MemberCons(expected);
    MemberCons(actual);
    hide Compare, Ascending;
    if m.Differs? {
      forall e, a | e in expected && a in actual && e.customerId == a.customerId
        ensures (e == expected[0] && a == actual[0]) || (e in expected[1..] && a in actual[1..])
      {
        assert e in expected[1..] ==> e.customerId in Ids(expected[1..]);
        assert a in actual[1..] ==> a.customerId in Ids(actual[1..]);
      }
      assert expected[0] in expected && actual[0] in actual;
    }
  }

  lemma BelongsAbove(expected: Rows, actual: Rows, m: Mismatch, low: int)
    requires Belongs(expected, actual, m) && forall id | id in Ids(expected) + Ids(actual) :: low < id
    ensures low < m.id
  {
    if m.Differs? {
      var e, a :| e in expected && a in actual && e.customerId == m.id && a.customerId == m.id;
    }
    assert m.id in Ids(expected) + Ids(actual);
  }

  lemma NothingBelongs()
    ensures Ordered([]) && forall m :: !Belongs([], [], m)
  {
  }

  /** For streams in strictly ascending id order the merge reports exactly the missing ids, the extra ids and the
      common ids whose fields differ, once each and in id order. */
  lemma {:induction false} MismatchesExactly(expected: Rows, actual: Rows)
    requires Ascending(expected) && Ascending(actual)
    ensures Ordered(Mismatches(expected, actual))
    ensures forall m :: m in Mismatches(expected, actual) <==> Belongs(expected, actual, m)
    decreases |expected| + |actual|
  {
    hide Compare, Ascending, Belongs, Ordered, Ids;
    if expected == [] && actual == [] {
      NothingBelongs();
    } else if actual == [] || (expected != [] && expected[0].customerId < actual[0].customerId) {
      IdsCons(expected);
      HeadMissing(expected, actual);
      MismatchesExactly(expected[1..], actual);
      Prepend(expected[1..], actual, [Missing(expected[0].customerId)]);
      forall m ensures m in Mismatches(expected, actual) <==> Belongs(expected, actual, m) {
        BelongsAfterMissing(expected, actual, m);
      }
    } else if expected == [] || actual[0].customerId < expected[0].customerId {
      IdsCons(actual);
      HeadMissing(actual, expected);
      MismatchesExactly(expected, actual[1..]);
      Prepend(expected, actual[1..], [Unexpected(actual[0].customerId)]);
      forall m ensures m in Mismatches(expected, actual) <==> Belongs(expected, actual, m) {
        BelongsAfterUnexpected(expected, actual, m);
      }
    } else {
      IdsCons(expected);
      IdsCons(actual);
      MismatchesExactly(expected[1..], actual[1..]);
      var fields := Compare(expected[0], actual[0]);
      Prepend(expected[1..], actual[1..], if fields == [] then [] else [Differs(expected[0].customerId, fields)]);
      forall m ensures m in Mismatches(expected, actual) <==> Belongs(expected, actual, m) {
        BelongsAfterBoth(expected, actual, m);
      }
    }
  }

  lemma Prepend(expected: Rows, actual: Rows, head: seq<Mismatch>)
    requires |head| <= 1 && Ordered(Mismatches(expected, actual))
    requires forall m :: m in Mismatches(expected, actual) <==> Belongs(expected, actual, m)
    requires head != [] ==> forall id | id in Ids(expected) + Ids(actual) :: head[0].id < id
    ensures Ordered(head + Mismatches(expected, actual))
  {
    hide Belongs, Mismatches, Compare, Ids;
    if head != [] {
      forall m | m in Mismatches(expected, actual) ensures head[0].id < m.id {
        BelongsAbove(expected, actual, m, head[0].id);
      }
    }
  }

  /** No mismatch at all exactly when the streams agree row by row. */
  lemma {:induction false} NoneExactly(expected: Rows, actual: Rows)
    requires Ascending(expected) && Ascending(actual)
    ensures Mismatches(expected, actual) == [] <==> expected == actual
    decreases |expected| + |actual|
  {
    hide Ascending, Ids;
    if expected != [] && actual != [] && expected[0].customerId == actual[0].customerId {
      IdsCons(expected);
      IdsCons(actual);
      NoneExactly(expected[1..], actual[1..]);
      assert expected == [expected[0]] + expected[1..] && actual == [actual[0]] + actual[1..];
    }
  }

  // ------------------------------------------------------------------- counts --

  ghost function IdsOf(ms: seq<Mismatch>): set<int> { set m | m in ms :: m.id }

  ghost function DifferingIds(expected: Rows, actual: Rows): set<int> {
    set e, a | e in expected && a in actual && e.customerId == a.customerId && Compare(e, a) != [] :: e.customerId
  }

  lemma {:induction false} OrderedSize(ms: seq<Mismatch>)
    requires Ordered(ms)
    ensures |IdsOf(ms)| == |ms|
  {
    if ms != [] {
      var n := |ms| - 1;
      OrderedSize(ms[..n]);
      assert ms == ms[..n] + [ms[n]];
      assert IdsOf(ms) == IdsOf(ms[..n]) + {ms[n].id};
      assert ms[n].id !in IdsOf(ms[..n]);
    } else {
      assert IdsOf(ms) == {};
    }
  }

  /** The total is the number of missing ids, plus extra ids, plus common ids that differ. */
  lemma TotalExactly(expected: Rows, actual: Rows)
    requires Ascending(expected) && Ascending(actual)
    ensures |Mismatches(expected, actual)|
      == |Ids(expected) - Ids(actual)| + |Ids(actual) - Ids(expected)| + |DifferingIds(expected, actual)|
  {
    var ms := Mismatches(expected, actual);
    MismatchesExactly(expected, actual);
    OrderedSize(ms);
    var missing, extra, differing := Ids(expected) - Ids(actual), Ids(actual) - Ids(expected), DifferingIds(expected, actual);
    forall id ensures id in IdsOf(ms) <==> id in missing || id in extra || id in differing {
      IdMismatched(expected, actual, id);
    }
    assert IdsOf(ms) == missing + extra + differing;
    assert missing !! extra && (missing + extra) !! differing;
  }

  lemma IdMismatched(expected: Rows, actual: Rows, id: int)
    requires forall m :: m in Mismatches(expected, actual) <==> Belongs(expected, actual, m)
    ensures id in IdsOf(Mismatches(expected, actual)) <==>
      id in Ids(expected) - Ids(actual) || id in Ids(actual) - Ids(expected) || id in DifferingIds(expected, actual)
  {
    hide Mismatches, Compare;
    var ms := Mismatches(expected, actual);
    if id in Ids(expected) - Ids(actual) { assert Belongs(expected, actual, Missing(id)); assert Missing(id) in ms; }
    if id in Ids(actual) - Ids(expected) { assert Belongs(expected, actual, Unexpected(id)); assert Unexpected(id) in ms; }
    if id in DifferingIds(expected, actual) {
      var e, a :| e in expected && a in actual && e.customerId == a.customerId && Compare(e, a) != [] && e.customerId == id;
      assert Belongs(expected, actual, Differs(id, Compare(e, a)));
      assert Differs(id, Compare(e, a)) in ms;
    }
    if id in IdsOf(ms) {
      var m :| m in ms && m.id == id;
      assert Belongs(expected, actual, m);
    }
  }

  // ---------------------------------------------------------------- the verifier --

  datatype Report = Report(
    sourceRows: nat, destinationRows: nat, expectedDigest: nat, actualDigest: nat, total: nat, retained: seq<Mismatch>)

  datatype Verdict = Passed | RowMismatches(total: nat, omitted: nat) | CountsDiffer | DigestsDiffer

  ghost function Retained(all: seq<Mismatch>): seq<Mismatch> { if |all| < MAX_RETAINED then all else all[..MAX_RETAINED] }

  ghost function Bytes(rows: Rows): seq<Byte> { EncodeAll(EncodeProjected, rows) }

  lemma StepBytes(rows: Rows, i: nat)
    requires i < |rows|
    ensures Bytes(rows[..i + 1]) == Bytes(rows[..i]) + EncodeProjected(rows[i])
  {
    EncodeAllAppend(EncodeProjected, rows[..i], rows[i]);
    assert rows[..i + 1] == rows[..i] + [rows[i]];
  }

  /** One turn of the merge, seen from the rows still to come. */
  lemma MergeTurn(expected: Rows, actual: Rows, i: nat, j: nat)
    requires i <= |expected| && j <= |actual| && (i < |expected| || j < |actual|)
    ensures var here := Mismatches(expected[i..], actual[j..]);
      if j == |actual| || (i < |expected| && expected[i].customerId < actual[j].customerId) then
        here == [Missing(expected[i].customerId)] + Mismatches(expected[i + 1..], actual[j..])
      else if i == |expected| || actual[j].customerId < expected[i].customerId then
        here == [Unexpected(actual[j].customerId)] + Mismatches(expected[i..], actual[j + 1..])
      else
        here == (if Compare(expected[i], actual[j]) == [] then [] else [Differs(expected[i].customerId, Compare(expected[i], actual[j]))])
                + Mismatches(expected[i + 1..], actual[j + 1..])
  {
    if i < |expected| { assert expected[i..][1..] == expected[i + 1..]; }
    if j < |actual| { assert actual[j..][1..] == actual[j + 1..]; }
  }

  /** The loop's variables. */
  datatype Progress = Progress(
    i: nat, j: nat, total: nat, retained: seq<Mismatch>, expectedBytes: seq<Byte>, actualBytes: seq<Byte>)

  /** `p` accounts for the first i and j rows, and `done` is what they mismatched. */
  ghost predicate Accounts(expected: Rows, actual: Rows, p: Progress, done: seq<Mismatch>) {
    && p.i <= |expected| && p.j <= |actual|
    && Mismatches(expected, actual) == done + Mismatches(expected[p.i..], actual[p.j..])
    && p.total == |done| && p.retained == Retained(done)
    && p.expectedBytes == Bytes(expected[..p.i]) && p.actualBytes == Bytes(actual[..p.j])
  }

  /** `record_mismatch`: always counts, retains only below the bound. */
  function Record(p: Progress, m: Mismatch): Progress {
    p.(total := p.total + 1, retained := if |p.retained| < MAX_RETAINED then p.retained + [m] else p.retained)
  }

  function TakeExpected(expected: Rows, p: Progress): Progress
    requires p.i < |expected|
  {
    p.(i := p.i + 1, expectedBytes := p.expectedBytes + EncodeProjected(expected[p.i]))
  }

  function TakeActual(actual: Rows, p: Progress): Progress
    requires p.j < |actual|
  {
    p.(j := p.j + 1, actualBytes := p.actualBytes + EncodeProjected(actual[p.j]))
  }

  lemma AfterTurn(expected: Rows, actual: Rows, p: Progress, done: seq<Mismatch>, ms: seq<Mismatch>, q: Progress)
    requires Accounts(expected, actual, p, done) && |ms| <= 1
    requires q.i <= |expected| && q.j <= |actual|
    requires q.i == p.i || (q.i == p.i + 1 && q.expectedBytes == p.expectedBytes + EncodeProjected(expected[p.i]))
    requires q.j == p.j || (q.j == p.j + 1 && q.actualBytes == p.actualBytes + EncodeProjected(actual[p.j]))
    requires q.i == p.i ==> q.expectedBytes == p.expectedBytes
    requires q.j == p.j ==> q.actualBytes == p.actualBytes
    requires Mismatches(expected[p.i..], actual[p.j..]) == ms + Mismatches(expected[q.i..], actual[q.j..])
    requires ms == [] ==> q.total == p.total && q.retained == p.retained
    requires ms != [] ==> q.total == Record(p, ms[0]).total && q.retained == Record(p, ms[0]).retained
    ensures Accounts(expected, actual, q, done + ms)
  {
    hide Bytes, EncodeProjected, Mismatches;
    if q.i > p.i { StepBytes(expected, p.i); }
    if q.j > p.j { StepBytes(actual, p.j); }
    if ms == [] { assert done + ms == done; } else { assert ms == [ms[0]]; }
  }

  lemma AtStart(expected: Rows, actual: Rows)
    ensures Accounts(expected, actual, Progress(0, 0, 0, [], [], []), [])
  {
    assert expected[0..] == expected && actual[0..] == actual && expected[..0] == [] && actual[..0] == [];
  }

  lemma AtEnd(expected: Rows, actual: Rows, p: Progress, done: seq<Mismatch>)
    requires Accounts(expected, actual, p, done) && p.i == |expected| && p.j == |actual|
    ensures Mismatches(expected, actual) == done && expected[..p.i] == expected && actual[..p.j] == actual
  {
    assert expected[p.i..] == [] && actual[p.j..] == [];
  }

  /** The merge loop of `verify`. */
  method Merge(expected: Rows, actual: Rows, hash: seq<Byte> -> nat) returns (report: Report)
    ensures report.total == |Mismatches(expected, actual)|
    ensures report.retained == Retained(Mismatches(expected, actual))
    ensures report.sourceRows == |expected| && report.destinationRows == |actual|
    ensures report.expectedDigest == hash(Bytes(expected)) && report.actualDigest == hash(Bytes(actual))
  {
    hide Compare, Bytes, EncodeProjected, Mismatches, Retained;
    var p := Progress(0, 0, 0, [], [], []);
    ghost var done: seq<Mismatch> := [];
    AtStart(expected, actual);
    while p.i < |expected| || p.j < |actual|
      invariant Accounts(expected, actual, p, done)
      decreases |expected| - p.i + |actual| - p.j
    {
      MergeTurn(expected, actual, p.i, p.j);
      ghost var before := p;
      ghost var ms: seq<Mismatch> := [];
      if p.j == |actual| || (p.i < |expected| && expected[p.i].customerId < actual[p.j].customerId) {
        var m := Missing(expected[p.i].customerId);
        p := TakeExpected(expected, Record(p, m));
        ms := [m];
      } else if p.i == |expected| || actual[p.j].customerId < expected[p.i].customerId {
        var m := Unexpected(actual[p.j].customerId);
        p := TakeActual(actual, Record(p, m));
        ms := [m];
      } else {
        var fields := Compare(expected[p.i], actual[p.j]);
        if fields != [] {
          var m := Differs(expected[p.i].customerId, fields);
          p := Record(p, m);
          ms := [m];
        }
        p := TakeActual(actual, TakeExpected(expected, p));
      }
      AfterTurn(expected, actual, before, done, ms, p);
      done := done + ms;
    }
    AtEnd(expected, actual, p, done);
    report := Report(p.i, p.j, hash(p.expectedBytes), hash(p.actualBytes), p.total, p.retained);
  }

  /** `verify`: the three checks in order. Over ascending streams only the first can ever fail. */
  method Verify(expected: Rows, actual: Rows, hash: seq<Byte> -> nat) returns (verdict: Verdict)
    requires Ascending(expected) && Ascending(actual)
    ensures verdict.Passed? <==> expected == actual
    ensures !verdict.CountsDiffer? && !verdict.DigestsDiffer?
    ensures verdict.RowMismatches? ==>
      && verdict.total == |Mismatches(expected, actual)|
      && verdict.omitted == if verdict.total > MAX_RETAINED then verdict.total - MAX_RETAINED else 0
  {
    var report := Merge(expected, actual, hash);
    NoneExactly(expected, actual);
    if report.total > 0 { return RowMismatches(report.total, report.total - |report.retained|); }
    if report.sourceRows != report.destinationRows { return CountsDiffer; }
    if report.expectedDigest != report.actualDigest { return DigestsDiffer; }
    return Passed;
  }
}
