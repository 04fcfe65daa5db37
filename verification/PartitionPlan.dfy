/** Range planning and the check of the durable plan (postgres-local-partition/src/main.rs). */
module PartitionPlan {
  import opened Decimal

  const U16_MAX: nat := 65_535

  datatype Assignment = Assignment(index: nat, key: string, start: nat, end: nat)

  /** `validate_shape`: the rows of one partition. */
  function ValidateShape(rows: nat, partitions: nat, workers: nat): (r: Option<nat>)
    ensures r.Some? <==> 0 < workers <= partitions && rows % partitions == 0 && 0 < rows <= I64_MAX
    ensures r.Some? ==> r.value >= 1 && r.value * partitions == rows
  {
    if rows == 0 || partitions == 0 || workers == 0 then None
    else if workers > partitions then None
    else if rows % partitions != 0 then None
    else
      var size := rows / partitions;
      assert size * partitions == rows;
      if size == 0 || rows > I64_MAX then None else Some(size)
  }

  function PartitionKey(index: nat): string { "partition-" + Padded(index, 4) }

  function AssignmentOf(index: nat, size: nat): Assignment
    requires size >= 1
  {
    Assignment(index, PartitionKey(index), index * size + 1, index * size + size)
  }

  function CheckedMul(a: nat, b: nat): Option<nat> { if a * b <= U64_MAX then Some(a * b) else None }

  function CheckedAdd(a: nat, b: nat): Option<nat> { if a + b <= U64_MAX then Some(a + b) else None }

  /** `assignments`: None on a bad shape or an overflow; with a good shape nothing overflows. */
  method Assignments(rows: nat, partitions: nat) returns (plan: Option<seq<Assignment>>)
    requires rows <= U64_MAX && partitions <= U16_MAX
    ensures plan.Some? <==> ValidateShape(rows, partitions, 1).Some?
    ensures plan.Some? ==> forall i | 0 <= i < |plan.value| ::
      && plan.value[i].index == i && plan.value[i].key == "partition-" + Padded(i, 4)
      && plan.value[i].start == i * (rows / partitions) + 1 && plan.value[i].end == (i + 1) * (rows / partitions)
    ensures plan.Some? ==>
      && |plan.value| == partitions
      && forall i | 0 <= i < partitions :: plan.value[i] == AssignmentOf(i, ValidateShape(rows, partitions, 1).value)
  {
    hide Padded;
    var shape := ValidateShape(rows, partitions, 1);
    if shape.None? { return None; }
    var size := shape.value;
    var out: seq<Assignment> := [];
    for index := 0 to partitions
      invariant |out| == index && forall i | 0 <= i < index :: out[i] == AssignmentOf(i, size)
    {
      RangeFits(index, partitions, size);
      var first := CheckedMul(index, size);
      if first.None? { return None; }
      var start := CheckedAdd(first.value, 1);
      if start.None? { return None; }
      var end := CheckedAdd(start.value, size - 1);
      if end.None? { return None; }
      out := out + [Assignment(index, PartitionKey(index), start.value, end.value)];
    }
    forall i | 0 <= i < partitions
      ensures out[i].start == i * (rows / partitions) + 1 && out[i].end == (i + 1) * (rows / partitions)
    {
      assert (i + 1) * size == i * size + size;
    }
    return Some(out);
  }

  lemma RangeFits(index: nat, partitions: nat, size: nat)
    requires index < partitions
    ensures index * size + size <= partitions * size
  {
    assert (index + 1) * size <= partitions * size;
  }

  // ------------------------------------------------------------------ the tiling --

  /** The index `expected_destination_identity` derives for a source id. */
  function Owner(id: nat, size: nat): nat
    requires id >= 1 && size >= 1
  {
    (id - 1) / size
  }

  /** The ranges tile 1..rows: a partition's range holds an id exactly when it is the id's owner, and every id of
      the source has one. */
  lemma Tiles(rows: nat, partitions: nat, workers: nat, id: nat, index: nat)
    requires ValidateShape(rows, partitions, workers).Some? && id >= 1
    ensures var size := ValidateShape(rows, partitions, workers).value;
      && (AssignmentOf(index, size).start <= id <= AssignmentOf(index, size).end <==> index == Owner(id, size))
      && (id <= rows <==> Owner(id, size) < partitions)
  {
    var size := ValidateShape(rows, partitions, workers).value;
    DivisionBounds(id - 1, size);
    var o := Owner(id, size);
    if index < o { RangeFits(index, o, size); } else if index > o { RangeFits(o, index, size); }
    if o < partitions { RangeFits(o, partitions, size); } else { MultipleOrder(partitions, o, size); }
  }

  lemma DivisionBounds(n: nat, d: nat)
    requires d > 0
    ensures (n / d) * d <= n < (n / d) * d + d
  {
  }

  lemma MultipleOrder(a: nat, b: nat, size: nat)
    requires a <= b
    ensures a * size <= b * size
  {
  }

  // ------------------------------------------------------------------- key order --

  /** `str::cmp`, strictly less. */
  predicate LexLess(a: string, b: string) {
    if a == [] then b != []
    else b != [] && (a[0] < b[0] || (a[0] == b[0] && LexLess(a[1..], b[1..])))
  }

  lemma {:induction false} LexIrreflexive(a: string)
    ensures !LexLess(a, a)
  {
    if a != [] { LexIrreflexive(a[1..]); }
  }

  lemma {:induction false} LexTransitive(a: string, b: string, c: string)
    requires LexLess(a, b) && LexLess(b, c)
    ensures LexLess(a, c)
  {
    if a != [] && a[0] == b[0] == c[0] { LexTransitive(a[1..], b[1..], c[1..]); }
  }

  lemma {:induction false} LexPrefix(p: string, a: string, b: string)
    ensures LexLess(p + a, p + b) <==> LexLess(a, b)
  {
    if p == [] {
      assert p + a == a && p + b == b;
    } else {
      LexPrefix(p[1..], a, b);
      assert (p + a)[1..] == p[1..] + a && (p + b)[1..] == p[1..] + b;
    }
  }

  /** A difference that has already been decided is not changed by what follows. */
  lemma {:induction false} LexExtend(a: string, b: string, x: string, y: string)
    requires |a| == |b| && LexLess(a, b)
    ensures LexLess(a + x, b + y)
  {
    if a[0] == b[0] {
      LexExtend(a[1..], b[1..], x, y);
      assert (a + x)[1..] == a[1..] + x && (b + y)[1..] == b[1..] + y;
    }
  }

  /** Among digit strings of one length, text order is number order. */
  lemma {:induction false} LexIsNumeric(a: string, b: string)
    requires AllDigits(a) && AllDigits(b) && |a| == |b|
    ensures Value(a) < Value(b) ==> LexLess(a, b)
    ensures Value(a) == Value(b) ==> a == b
  {
    if a != [] {
      var n := |a| - 1;
      LexIsNumeric(a[..n], b[..n]);
      assert a == a[..n] + [a[n]] && b == b[..n] + [b[n]];
      if Value(a[..n]) < Value(b[..n]) {
        LexExtend(a[..n], b[..n], [a[n]], [b[n]]);
      } else if Value(a) < Value(b) {
        LexPrefix(a[..n], [a[n]], [b[n]]);
      }
    }
  }

  lemma FourDigits(n: nat)
    requires n <= 9_999
    ensures |Padded(n, 4)| == 4
  {
    assert Pow10(4) == 10_000;
    DigitsLength(n, 4);
  }

  /** Up to index 9999 keys sort like their indices. */
  lemma KeysAscend(i: nat, j: nat)
    requires i < j <= 9_999
    ensures LexLess(PartitionKey(i), PartitionKey(j))
  {
    hide Padded;
    FourDigits(i);
    FourDigits(j);
    ValueOfPadded(i, 4);
    ValueOfPadded(j, 4);
    LexIsNumeric(Padded(i, 4), Padded(j, 4));
    LexPrefix("partition-", Padded(i, 4), Padded(j, 4));
  }

  /** Beyond that they do not: partition 10000 sorts before partition 1001. */
  lemma FiveDigitsSortEarly()
    ensures LexLess(PartitionKey(10_000), PartitionKey(1_001))
  {
    assert Digits(1_001) == "1001" by { assert Digits(1) == "1"; assert Digits(10) == "10"; assert Digits(100) == "100"; }
    assert Digits(10_000) == "10000" by { assert Digits(100) == "100"; assert Digits(1_000) == "1000"; }
    assert "10000" == "100" + "00" && "1001" == "100" + "1";
    LexPrefix("100", "00", "1");
    LexPrefix("partition-", "10000", "1001");
  }

  // ------------------------------------------------------------- the durable plan --

  /** One durable partition: its key and ordinal, the payload of its context, and whether it completed. */
  datatype Partition = Partition(
    key: string, ordinal: nat, index: nat, start: nat, end: nat, digest: string, completed: bool)

  ghost predicate Sorted(ps: seq<Partition>) {
    forall i, j | 0 <= i < j < |ps| :: !LexLess(ps[j].key, ps[i].key)
  }

  function Insert(p: Partition, ps: seq<Partition>): (r: seq<Partition>)
    ensures |r| == |ps| + 1
  {
    if ps == [] || LexLess(p.key, ps[0].key) then [p] + ps else [ps[0]] + Insert(p, ps[1..])
  }

  /** `durable.sort_by(key)`. */
  function SortByKey(ps: seq<Partition>): (r: seq<Partition>)
    ensures |r| == |ps|
  {
    if ps == [] then [] else Insert(ps[|ps| - 1], SortByKey(ps[..|ps| - 1]))
  }

  /** Before everything that is not smaller. */
  lemma FrontSorted(p: Partition, ps: seq<Partition>)
    requires Sorted(ps) && forall q | q in ps :: !LexLess(q.key, p.key)
    ensures Sorted([p] + ps)
  {
    hide LexLess;
  }

  lemma LessThanAll(p: Partition, ps: seq<Partition>)
    requires Sorted(ps) && ps != [] && LexLess(p.key, ps[0].key)
    ensures forall q | q in ps :: !LexLess(q.key, p.key)
  {
    hide LexLess;
    forall q | q in ps ensures !LexLess(q.key, p.key) {
      var j :| 0 <= j < |ps| && ps[j] == q;
      LexIrreflexive(ps[0].key);
      if LexLess(q.key, p.key) { LexTransitive(q.key, p.key, ps[0].key); }
    }
  }

  lemma {:induction false} InsertSorts(p: Partition, ps: seq<Partition>)
    requires Sorted(ps)
    ensures Sorted(Insert(p, ps)) && multiset(Insert(p, ps)) == multiset(ps) + multiset{p}
  {
    hide LexLess;
    if ps == [] {
      assert Insert(p, ps) == [p];
    } else if LexLess(p.key, ps[0].key) {
      LessThanAll(p, ps);
      FrontSorted(p, ps);
    } else {
      InsertSorts(p, ps[1..]);
      assert ps == [ps[0]] + ps[1..];
      var rest := Insert(p, ps[1..]);
      forall q | q in rest ensures !LexLess(q.key, ps[0].key) {
        assert q in multiset(rest);
        assert q == p || q in ps[1..];
      }
      FrontSorted(ps[0], rest);
    }
  }

  lemma {:induction false} SortSorts(ps: seq<Partition>)
    ensures Sorted(SortByKey(ps)) && multiset(SortByKey(ps)) == multiset(ps)
  {
    if ps != [] {
      var n := |ps| - 1;
      SortSorts(ps[..n]);
      InsertSorts(ps[n], SortByKey(ps[..n]));
      assert ps == ps[..n] + [ps[n]];
    }
  }

  ghost predicate StrictlyAscending(ps: seq<Partition>) {
    forall i, j | 0 <= i < j < |ps| :: LexLess(ps[i].key, ps[j].key)
  }

  lemma HeadsAgree(sorted: seq<Partition>, target: seq<Partition>)
    requires Sorted(sorted) && StrictlyAscending(target) && sorted != [] && target != []
    requires sorted[0] in target && target[0] in sorted
    ensures sorted[0] == target[0]
  {
    hide LexLess;
    var i :| 0 <= i < |target| && target[i] == sorted[0];
    var k :| 0 <= k < |sorted| && sorted[k] == target[0];
    assert i == 0 || LexLess(target[0].key, target[i].key);
    assert k == 0 || !LexLess(sorted[k].key, sorted[0].key);
  }

  lemma TailMultiset(ps: seq<Partition>)
    requires ps != []
    ensures multiset(ps[1..]) == multiset(ps) - multiset{ps[0]}
  {
    assert ps == [ps[0]] + ps[1..];
  }

  /** Sorting any permutation of a strictly ascending sequence restores it. */
  lemma {:induction false} SortedUnique(sorted: seq<Partition>, target: seq<Partition>)
    requires Sorted(sorted) && StrictlyAscending(target) && multiset(sorted) == multiset(target)
    ensures sorted == target
  {
    hide LexLess;
    assert |sorted| == |multiset(sorted)| == |target|;
    if sorted != [] {
      assert sorted[0] in multiset(target) && target[0] in multiset(sorted);
      HeadsAgree(sorted, target);
      TailMultiset(sorted);
      TailMultiset(target);
      SortedUnique(sorted[1..], target[1..]);
      assert sorted == [sorted[0]] + sorted[1..] && target == [target[0]] + target[1..];
    }
  }

  /** What `partition_entry` and the launcher make of an assignment. */
  function EntryOf(a: Assignment, digest: string): Partition {
    Partition(a.key, a.index + 1, a.index, a.start, a.end, digest, true)
  }

  function ExpectedPlan(partitions: nat, size: nat, digest: string): (ps: seq<Partition>)
    requires size >= 1
    ensures |ps| == partitions && forall i | 0 <= i < partitions :: ps[i] == EntryOf(AssignmentOf(i, size), digest)
  {
    seq(partitions, i requires 0 <= i => EntryOf(AssignmentOf(i, size), digest))
  }

  lemma PlanAscends(partitions: nat, size: nat, digest: string)
    requires size >= 1 && partitions <= 10_000
    ensures StrictlyAscending(ExpectedPlan(partitions, size, digest))
  {
    hide PartitionKey;
    var plan := ExpectedPlan(partitions, size, digest);
    forall i, j | 0 <= i < j < partitions ensures LexLess(plan[i].key, plan[j].key) {
      KeysAscend(i, j);
    }
  }

  /** `verify_framework`'s loop over the sorted durable plan; the flags are terminal state, plan and contexts. */
  method VerifyFramework(jobCompleted: bool, parentCompleted: bool, durable: seq<Partition>, expected: seq<Assignment>, digest: string)
    returns (terminal: bool, plan: bool, contexts: bool)
    ensures terminal <==> jobCompleted && parentCompleted && forall p | p in durable :: p.completed
    ensures plan <==> |durable| == |expected| && forall i | 0 <= i < |expected| ::
      SortByKey(durable)[i].key == expected[i].key && SortByKey(durable)[i].ordinal == expected[i].index + 1
    ensures contexts <==> |durable| == |expected| && forall i | 0 <= i < |expected| ::
      SortByKey(durable)[i].index == expected[i].index && SortByKey(durable)[i].start == expected[i].start
      && SortByKey(durable)[i].end == expected[i].end && SortByKey(durable)[i].digest == digest
  {
    hide SortByKey;
    SortSorts(durable);
    var sorted := SortByKey(durable);
    assert |sorted| == |multiset(sorted)| == |durable|;
    plan, contexts := |sorted| == |expected|, |sorted| == |expected|;
    for position := 0 to |sorted|
      invariant plan <==> |sorted| == |expected| && forall i | 0 <= i < position ::
        sorted[i].key == expected[i].key && sorted[i].ordinal == expected[i].index + 1
      invariant contexts <==> |sorted| == |expected| && forall i | 0 <= i < position ::
        sorted[i].index == expected[i].index && sorted[i].start == expected[i].start
        && sorted[i].end == expected[i].end && sorted[i].digest == digest
    {
      if position >= |expected| {
        plan, contexts := false, false;
      } else {
        var p, e := sorted[position], expected[position];
        plan := plan && p.key == e.key && p.ordinal == e.index + 1;
        contexts := contexts && p.index == e.index && p.start == e.start && p.end == e.end && p.digest == digest;
      }
    }
    var all := forall p | p in durable :: p.completed;
    terminal := jobCompleted && parentCompleted && all;
  }

  /** The framework check passes exactly when both executions completed, the durable plan is, in whatever order it
      was read, the set of expected partitions, all completed, and there are at most 10000 of them: with more, every
      durable plan is rejected, the correct one included. */
  method FrameworkPasses(jobCompleted: bool, parentCompleted: bool, durable: seq<Partition>, rows: nat, partitions: nat, digest: string)
    returns (passed: bool)
    requires rows <= U64_MAX && partitions <= U16_MAX && ValidateShape(rows, partitions, 1).Some?
    ensures passed <==> (
      && partitions <= 10_000 && jobCompleted && parentCompleted
      && multiset(durable) == multiset(ExpectedPlan(partitions, ValidateShape(rows, partitions, 1).value, digest)))
  {
    hide SortByKey;
    var expected := Assignments(rows, partitions);
    var terminal, plan, contexts := VerifyFramework(jobCompleted, parentCompleted, durable, expected.value, digest);
    passed := terminal && plan && contexts;
    ghost var target := ExpectedPlan(partitions, ValidateShape(rows, partitions, 1).value, digest);
    SortSorts(durable);
    PlanMatches(durable, SortByKey(durable), target);
    FlagsExactly(durable, SortByKey(durable), expected.value, target, digest);
    hide Sorted, StrictlyAscending, EntryOf, AssignmentOf;
    if partitions <= 10_000 {
      PlanAscends(partitions, ValidateShape(rows, partitions, 1).value, digest);
      if multiset(durable) == multiset(target) { SortedUnique(SortByKey(durable), target); }
    } else {
      TargetUnsorted(target, partitions, ValidateShape(rows, partitions, 1).value, digest);
    }
  }

  /** The three flags together mean that the sorted plan is the expected one, all completed. */
  lemma FlagsExactly(durable: seq<Partition>, sorted: seq<Partition>, expected: seq<Assignment>, target: seq<Partition>, digest: string)
    requires |sorted| == |durable| && (forall p :: p in durable <==> p in sorted)
    requires |target| == |expected| && forall i | 0 <= i < |target| :: target[i] == EntryOf(expected[i], digest)
    ensures sorted == target <==> (
      && (forall p | p in durable :: p.completed) && |durable| == |expected|
      && (forall i | 0 <= i < |expected| :: sorted[i].key == expected[i].key && sorted[i].ordinal == expected[i].index + 1)
      && (forall i | 0 <= i < |expected| :: sorted[i].index == expected[i].index && sorted[i].start == expected[i].start
            && sorted[i].end == expected[i].end && sorted[i].digest == digest))
  {
    if |sorted| == |target| && forall p | p in durable :: p.completed {
      forall i | 0 <= i < |sorted| ensures sorted[i].completed { assert sorted[i] in sorted; }
    }
  }

  lemma TargetUnsorted(target: seq<Partition>, partitions: nat, size: nat, digest: string)
    requires size >= 1 && partitions > 10_000 && target == ExpectedPlan(partitions, size, digest)
    ensures !Sorted(target)
  {
    hide PartitionKey;
    FiveDigitsSortEarly();
    assert LexLess(target[10_000].key, target[1_001].key);
  }

  lemma PlanMatches(durable: seq<Partition>, sorted: seq<Partition>, target: seq<Partition>)
    requires multiset(sorted) == multiset(durable)
    ensures |sorted| == |durable|
    ensures forall p :: p in durable <==> p in sorted
    ensures sorted == target ==> multiset(durable) == multiset(target)
    ensures multiset(durable) == multiset(target) ==> |durable| == |target| && forall p :: p in durable <==> p in target
  {
    assert |sorted| == |multiset(sorted)| == |durable|;
    assert |target| == |multiset(target)|;
    forall p ensures p in durable <==> p in sorted { assert p in multiset(durable) <==> p in multiset(sorted); }
    if multiset(durable) == multiset(target) {
      forall p ensures p in durable <==> p in target { assert p in multiset(durable) <==> p in multiset(target); }
    }
  }

  /** Sorting the expected plan by key leaves it in index order exactly up to 10000 partitions. Beyond that a
      correct durable plan is rejected: index 10000 sorts before index 1001. */
  lemma KeyOrderIsIndexOrder(partitions: nat, size: nat, digest: string)
    requires size >= 1
    ensures SortByKey(ExpectedPlan(partitions, size, digest)) == ExpectedPlan(partitions, size, digest) <==> partitions <= 10_000
  {
    hide PartitionKey, SortByKey;
    var plan := ExpectedPlan(partitions, size, digest);
    SortSorts(plan);
    if partitions <= 10_000 {
      PlanAscends(partitions, size, digest);
      SortedUnique(SortByKey(plan), plan);
    } else {
      TargetUnsorted(plan, partitions, size, digest);
    }
  }
}
