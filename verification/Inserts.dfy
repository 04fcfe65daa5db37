/** Splitting writes into bounded multi-row inserts, and the statement accounting of the recovery benchmark
    (csv-postgres/src/writer.rs, generator.rs and benchmark/paired.py of postgres-postgres). */
module Inserts {
  import opened Decimal
  import Failpoint

  const MAX_PARAMETERS := 2_000

  /** One `INSERT ... VALUES` statement: the placeholder numbers of each row, and the bound values. */
  datatype Statement<V> = Statement(placeholders: seq<seq<nat>>, values: seq<V>)

  /** Every placeholder names a bound value, and every row has the right width. */
  ghost predicate WellBound<V>(s: Statement<V>, columns: nat) {
    forall i, c | 0 <= i < |s.placeholders| && 0 <= c < |s.placeholders[i]| ::
      1 <= s.placeholders[i][c] <= |s.values| && |s.placeholders[i]| == columns
  }

  /** The rows the database inserts: each placeholder replaced by the value bound to its number. */
  ghost function Inserted<V>(s: Statement<V>, columns: nat): (rows: seq<seq<V>>)
    requires WellBound(s, columns)
    ensures |rows| == |s.placeholders|
  {
    seq(|s.placeholders|, i requires 0 <= i < |s.placeholders| =>
      seq(|s.placeholders[i]|, c requires 0 <= c < |s.placeholders[i]| => s.values[s.placeholders[i][c] - 1]))
  }

  /** `insert_sql`: one counter runs through all the rows. */
  method InsertSql(columns: nat, rowCount: nat) returns (rows: seq<seq<nat>>)
    ensures |rows| == rowCount
    ensures forall i | 0 <= i < rowCount :: |rows[i]| == columns && forall c | 0 <= c < columns :: rows[i][c] == i * columns + c + 1
  {
    rows := [];
    var param := 1;
    for i := 0 to rowCount
      invariant |rows| == i && param == i * columns + 1
      invariant forall k | 0 <= k < i :: |rows[k]| == columns && forall c | 0 <= c < columns :: rows[k][c] == k * columns + c + 1
    {
      rows := rows + [seq(columns, c => param + c)];
      param := param + columns;
      assert (i + 1) * columns == i * columns + columns;
    }
  }

  /** The values of some rows, one after the other. */
  function Flat<V>(rows: seq<seq<V>>): seq<V> {
    if rows == [] then [] else Flat(rows[..|rows| - 1]) + rows[|rows| - 1]
  }

  lemma {:induction false} FlatAt<V>(rows: seq<seq<V>>, columns: nat, i: nat, c: nat)
    requires (forall k | 0 <= k < |rows| :: |rows[k]| == columns) && i < |rows| && c < columns
    ensures |Flat(rows)| == |rows| * columns && i * columns + c < |Flat(rows)| && Flat(rows)[i * columns + c] == rows[i][c]
    decreases |rows|
  {
    var n := |rows| - 1;
    FlatLength(rows[..n], columns);
    assert (n + 1) * columns == n * columns + columns;
    if i < n {
      FlatAt(rows[..n], columns, i, c);
    }
  }

  lemma {:induction false} FlatLength<V>(rows: seq<seq<V>>, columns: nat)
    requires forall k | 0 <= k < |rows| :: |rows[k]| == columns
    ensures |Flat(rows)| == |rows| * columns
  {
    if rows != [] {
      FlatLength(rows[..|rows| - 1], columns);
      assert (|rows| - 1) * columns + columns == |rows| * columns;
    }
  }

  /** A statement with its counter-numbered placeholders inserts exactly the rows whose values were pushed. */
  lemma StatementInserts<V>(s: Statement<V>, columns: nat, rows: seq<seq<V>>)
    requires columns > 0 && (forall k | 0 <= k < |rows| :: |rows[k]| == columns)
    requires s.values == Flat(rows) && |s.placeholders| == |rows|
    requires forall i | 0 <= i < |rows| ::
      |s.placeholders[i]| == columns && forall c | 0 <= c < columns :: s.placeholders[i][c] == i * columns + c + 1
    ensures WellBound(s, columns) && Inserted(s, columns) == rows && |s.values| == |rows| * columns
  {
    FlatLength(rows, columns);
    forall i, c | 0 <= i < |rows| && 0 <= c < columns
      ensures 1 <= s.placeholders[i][c] <= |s.values| && s.values[s.placeholders[i][c] - 1] == rows[i][c]
    {
      FlatAt(rows, columns, i, c);
    }
    forall i | 0 <= i < |rows| ensures Inserted(s, columns)[i] == rows[i] {}
  }

  ghost function InsertedAll<V>(statements: seq<Statement<V>>, columns: nat): seq<seq<V>>
    requires forall s | s in statements :: WellBound(s, columns)
  {
    if statements == [] then []
    else
      var n := |statements| - 1;
      assert forall s | s in statements[..n] :: s in statements;
      InsertedAll(statements[..n], columns) + Inserted(statements[n], columns)
  }

  /** What a splitting writer promises: each statement binds something and at most 2000 values, and together the
      statements insert the rows given, in order. */
  ghost predicate Delivers<V>(statements: seq<Statement<V>>, columns: nat, rows: seq<seq<V>>) {
    && (forall s | s in statements :: WellBound(s, columns) && 0 < |s.values| <= MAX_PARAMETERS)
    && InsertedAll(statements, columns) == rows
  }

  lemma DeliversNext<V>(statements: seq<Statement<V>>, s: Statement<V>, columns: nat, rows: seq<seq<V>>, more: seq<seq<V>>)
    requires Delivers(statements, columns, rows) && WellBound(s, columns) && 0 < |s.values| <= MAX_PARAMETERS
    requires Inserted(s, columns) == more
    ensures Delivers(statements + [s], columns, rows + more)
  {
    hide WellBound, Inserted;
    assert (statements + [s])[..|statements|] == statements;
  }

  /** The body of the loop: push every value of the chunk, number the placeholders, make one statement. */
  method BindChunk<V>(chunk: seq<seq<V>>, columns: nat) returns (s: Statement<V>)
    requires columns > 0 && forall k | 0 <= k < |chunk| :: |chunk[k]| == columns
    ensures WellBound(s, columns) && Inserted(s, columns) == chunk && |s.values| == |chunk| * columns
  {
    hide WellBound, Inserted;
    var values: seq<V> := [];
    assert chunk[..0] == [];
    for i := 0 to |chunk|
      invariant values == Flat(chunk[..i])
    {
      FlatNext(chunk, i);
      values := values + chunk[i];
    }
    assert chunk[..|chunk|] == chunk;
    var placeholders := InsertSql(columns, |chunk|);
    s := Statement(placeholders, values);
    StatementInserts(s, columns, chunk);
  }

  /** `write` (size 400, columns 5) and `seed` (size 500, columns 4): `items.chunks(size)`, one insert each. */
  method Write<V>(rows: seq<seq<V>>, columns: nat, size: nat) returns (statements: seq<Statement<V>>)
    requires 0 < columns && 0 < size && size * columns <= MAX_PARAMETERS
    requires forall k | 0 <= k < |rows| :: |rows[k]| == columns
    ensures Delivers(statements, columns, rows) && |statements| == CeilDiv(|rows|, size)
  {
    hide Delivers, WellBound, Inserted, CeilDiv;
    statements := [];
    assert Delivers(statements, columns, []) by { DeliversNothing<V>(columns); }
    assert CeilDiv(0, size) == 0 by { CeilUnique(0, size, 0); }
    var done := 0;
    assert rows[..0] == [];
    while done < |rows|
      invariant done <= |rows| && Delivers(statements, columns, rows[..done])
      invariant if done < |rows| then done == |statements| * size else |statements| == CeilDiv(|rows|, size)
    {
      var next := if done + size < |rows| then done + size else |rows|;
      var chunk := rows[done..next];
      var s := BindChunk(chunk, columns);
      ChunkFits(|chunk|, size, columns);
      DeliversNext(statements, s, columns, rows[..done], chunk);
      assert rows[..next] == rows[..done] + chunk;
      CeilNext(|rows|, size, |statements|, done);
      statements := statements + [s];
      done := next;
    }
    assert rows[..done] == rows;
  }

  lemma DeliversNothing<V>(columns: nat)
    ensures Delivers<V>([], columns, [])
  {
  }

  lemma FlatNext<V>(rows: seq<seq<V>>, i: nat)
    requires i < |rows|
    ensures Flat(rows[..i + 1]) == Flat(rows[..i]) + rows[i]
  {
    assert rows[..i + 1][..i] == rows[..i];
  }

  lemma ChunkFits(n: nat, size: nat, columns: nat)
    requires 0 < n <= size && columns > 0
    ensures 0 < n * columns <= size * columns
  {
  }

  /** `math.ceil(a / b)`, and the number of `chunks(b)` of a items. */
  function CeilDiv(a: nat, b: nat): nat
    requires b > 0
  {
    (a + b - 1) / b
  }

  lemma DivisionBounds(x: nat, b: nat)
    requires b > 0
    ensures (x / b) * b <= x < (x / b) * b + b
  {
  }

  lemma MultipleStep(p: nat, q: nat, b: nat)
    requires p < q
    ensures p * b + b <= q * b
  {
    assert (q - p - 1) * b >= 0;
    assert (q - p - 1) * b == q * b - p * b - b;
  }

  lemma SameQuotient(p: nat, q: nat, b: nat, x: nat)
    requires p * b <= x < p * b + b && q * b <= x < q * b + b
    ensures p == q
  {
    if p < q { MultipleStep(p, q, b); }
    if q < p { MultipleStep(q, p, b); }
  }

  lemma CeilUnique(a: nat, b: nat, q: nat)
    requires b > 0 && (q == 0 ==> a == 0) && (q > 0 ==> (q - 1) * b < a <= q * b)
    ensures CeilDiv(a, b) == q
  {
    DivisionBounds(a + b - 1, b);
    assert q > 0 ==> (q - 1) * b + b == q * b;
    SameQuotient((a + b - 1) / b, q, b, a + b - 1);
  }

  lemma CeilNext(rows: nat, size: nat, k: nat, done: nat)
    requires size > 0 && done == k * size < rows
    ensures done + size < rows ==> done + size == (k + 1) * size
    ensures done + size >= rows ==> CeilDiv(rows, size) == k + 1
  {
    assert (k + 1) * size == k * size + size;
    if done + size >= rows { CeilUnique(rows, size, k + 1); }
  }

  /** The two callers. */
  const CSV_COLUMNS := 5
  const SEED_COLUMNS := 4
  const SEED_BATCH := 500

  method WriteCustomers<V>(rows: seq<seq<V>>) returns (statements: seq<Statement<V>>)
    requires forall k | 0 <= k < |rows| :: |rows[k]| == CSV_COLUMNS
    ensures Delivers(statements, CSV_COLUMNS, rows) && |statements| == CeilDiv(|rows|, 400)
  {
    if rows == [] {
      CeilUnique(0, 400, 0);
      DeliversNothing<V>(CSV_COLUMNS);
      return [];
    }
    var rowsPerStatement := if MAX_PARAMETERS / CSV_COLUMNS > 1 then MAX_PARAMETERS / CSV_COLUMNS else 1;
    statements := Write(rows, CSV_COLUMNS, rowsPerStatement);
  }

  method Seed<V>(rows: seq<seq<V>>) returns (statements: seq<Statement<V>>)
    requires forall k | 0 <= k < |rows| :: |rows[k]| == SEED_COLUMNS
    ensures Delivers(statements, SEED_COLUMNS, rows) && |statements| == CeilDiv(|rows|, SEED_BATCH)
  {
    statements := Write(rows, SEED_COLUMNS, SEED_BATCH);
  }

  // -------------------------------------------------------- benchmark accounting --

  const PROJECTION_COLUMNS := 7
  const ROWS_PER_STATEMENT := MAX_PARAMETERS / PROJECTION_COLUMNS

  function MinOf(a: nat, b: nat): nat { if a < b then a else b }

  /** Statements of a run chunk by chunk. */
  function Statements(rows: nat, chunkSize: nat): nat
    requires chunkSize > 0
    decreases rows
  {
    if rows == 0 then 0
    else CeilDiv(MinOf(chunkSize, rows), ROWS_PER_STATEMENT) + Statements(rows - MinOf(chunkSize, rows), chunkSize)
  }

  /** The same without a loop. */
  function ClosedForm(rows: nat, chunkSize: nat): int
    requires chunkSize > 0
  {
    (rows / chunkSize) * CeilDiv(chunkSize, ROWS_PER_STATEMENT) + CeilDiv(rows % chunkSize, ROWS_PER_STATEMENT)
  }

  /** Full chunks at the front cost the same each. */
  lemma {:induction false} FullChunksFirst(k: nat, rest: nat, chunkSize: nat)
    requires chunkSize > 0
    ensures Statements(k * chunkSize + rest, chunkSize) == k * CeilDiv(chunkSize, ROWS_PER_STATEMENT) + Statements(rest, chunkSize)
  {
    hide CeilDiv;
    if k > 0 {
      assert k * chunkSize == (k - 1) * chunkSize + chunkSize;
      FullChunksFirst(k - 1, rest, chunkSize);
      var c := CeilDiv(chunkSize, ROWS_PER_STATEMENT);
      assert k * c == (k - 1) * c + c;
      assert MinOf(chunkSize, k * chunkSize + rest) == chunkSize;
    }
  }

  lemma LastChunk(rest: nat, chunkSize: nat)
    requires rest < chunkSize
    ensures Statements(rest, chunkSize) == CeilDiv(rest, ROWS_PER_STATEMENT)
  {
    CeilUnique(0, ROWS_PER_STATEMENT, 0);
    hide CeilDiv;
    assert Statements(0, chunkSize) == 0;
  }

  lemma StatementsClosed(rows: nat, chunkSize: nat)
    requires chunkSize > 0
    ensures Statements(rows, chunkSize) == ClosedForm(rows, chunkSize)
  {
    hide CeilDiv, Statements;
    var k, rest := rows / chunkSize, rows % chunkSize;
    assert rows == k * chunkSize + rest;
    FullChunksFirst(k, rest, chunkSize);
    LastChunk(rest, chunkSize);
  }

  datatype Metrics = Metrics(committedRows: nat, committedChunks: nat, statements: int, boundParameters: int)

  /** `writer_metrics`. */
  method WriterMetrics(rows: nat, chunkSize: nat) returns (m: Metrics)
    requires chunkSize > 0
    ensures m == Metrics(rows, CeilDiv(rows, chunkSize), ClosedForm(rows, chunkSize), rows * PROJECTION_COLUMNS)
  {
    CeilUnique(0, chunkSize, 0);
    hide CeilDiv, ClosedForm;
    var statements, remaining := 0, rows;
    while remaining != 0
      invariant statements + Statements(remaining, chunkSize) == Statements(rows, chunkSize)
    {
      var chunkRows := MinOf(chunkSize, remaining);
      statements := statements + CeilDiv(chunkRows, ROWS_PER_STATEMENT);
      remaining := remaining - chunkRows;
    }
    StatementsClosed(rows, chunkSize);
    m := Metrics(rows, if rows > 0 then CeilDiv(rows, chunkSize) else 0, statements, rows * PROJECTION_COLUMNS);
  }

  /** `recovery_kill_chunk`: None where the benchmark refuses. */
  function KillChunk(rows: nat, chunkSize: nat): Option<nat>
    requires chunkSize > 0
  {
    var chunks := CeilDiv(rows, chunkSize);
    if chunks < 4 then None else Some(chunks / 2 + 1)
  }

  lemma CeilBounds(a: nat, b: nat)
    requires b > 0 && a > 0
    ensures CeilDiv(a, b) > 0 && (CeilDiv(a, b) - 1) * b < a <= CeilDiv(a, b) * b
  {
    DivisionBounds(a + b - 1, b);
    var q := (a + b - 1) / b;
    assert q == 0 || (q - 1) * b + b == q * b;
    assert q != 0;
  }

  /** The benchmark refuses exactly fewer than four chunks. */
  lemma KillRefusedExactly(rows: nat, chunkSize: nat)
    requires chunkSize > 0
    ensures KillChunk(rows, chunkSize).None? <==> rows <= 3 * chunkSize
  {
    CeilUnique(0, chunkSize, 0);
    hide CeilDiv;
    if rows > 0 {
      CeilBounds(rows, chunkSize);
      var q := CeilDiv(rows, chunkSize);
      if q < 3 { MultipleStep(q, 3, chunkSize); }
      if 3 < q - 1 { MultipleStep(3, q - 1, chunkSize); }
    }
  }

  /** Half of the chunks, rounded down, come before the killed one. */
  lemma KillChunkIsMiddle(rows: nat, chunkSize: nat)
    requires chunkSize > 0 && KillChunk(rows, chunkSize).Some?
    ensures var before := KillChunk(rows, chunkSize).value - 1;
      2 * before <= CeilDiv(rows, chunkSize) <= 2 * before + 1
  {
    hide CeilDiv;
  }

  /** The killed chunk is a full one, with full chunks before it and something after it. */
  lemma KillChunkIsFull(rows: nat, chunkSize: nat)
    requires chunkSize > 0 && KillChunk(rows, chunkSize).Some?
    ensures var k := KillChunk(rows, chunkSize).value;
      k >= 3 && (k - 1) * chunkSize + chunkSize == k * chunkSize && k * chunkSize < rows
  {
    CeilUnique(0, chunkSize, 0);
    hide CeilDiv;
    var chunks := CeilDiv(rows, chunkSize);
    assert rows > 0;
    CeilBounds(rows, chunkSize);
    var k := chunks / 2 + 1;
    if k < chunks - 1 { MultipleStep(k, chunks - 1, chunkSize); }
    assert (k - 1) * chunkSize + chunkSize == k * chunkSize;
  }

  /** The crash phase and the resume phase together cost exactly a clean run plus the reprocessed chunk, in rows,
      statements and bound values. */
  lemma RecoveryCost(rows: nat, chunkSize: nat)
    requires chunkSize > 0 && KillChunk(rows, chunkSize).Some?
    ensures var k := KillChunk(rows, chunkSize).value;
      var durable := MinOf(rows, (k - 1) * chunkSize);
      var reprocessed := MinOf(chunkSize, rows - durable);
      var attempted := MinOf(rows, k * chunkSize);
      && durable == (k - 1) * chunkSize && reprocessed == chunkSize
      && attempted + (rows - durable) == rows + reprocessed
      && Statements(attempted, chunkSize) + Statements(rows - durable, chunkSize)
           == Statements(rows, chunkSize) + CeilDiv(reprocessed, ROWS_PER_STATEMENT)
      && attempted * PROJECTION_COLUMNS + (rows - durable) * PROJECTION_COLUMNS == (rows + reprocessed) * PROJECTION_COLUMNS
  {
    KillChunkIsFull(rows, chunkSize);
    hide CeilDiv;
    var k := KillChunk(rows, chunkSize).value;
    var rest := rows - (k - 1) * chunkSize;
    FullChunksFirst(k, 0, chunkSize);
    FullChunksFirst(k - 1, rest, chunkSize);
    var c := CeilDiv(chunkSize, ROWS_PER_STATEMENT);
    assert k * c == (k - 1) * c + c;
  }

  /** The durable prefix the harness expects is what a during-write failpoint at that chunk leaves. */
  lemma DurablePrefix<T>(rows: seq<T>, chunkSize: nat, inner: seq<Failpoint.Inner>)
    requires chunkSize > 0 && KillChunk(|rows|, chunkSize).Some?
    requires |inner| == |Failpoint.Split(rows, chunkSize)| && Failpoint.Leading(inner) >= KillChunk(|rows|, chunkSize).value
    ensures var k := KillChunk(|rows|, chunkSize).value;
      var durable := (k - 1) * chunkSize;
      && 0 <= durable <= |rows|
      && Failpoint.Flat(Failpoint.Expected(Failpoint.Split(rows, chunkSize), inner, k, Failpoint.DuringWrite).0) == rows[..durable]
  {
    hide Failpoint.Split, Failpoint.Flat;
    KillChunkIsFull(|rows|, chunkSize);
    var k := KillChunk(|rows|, chunkSize).value;
    Failpoint.SplitPrefix(rows, chunkSize, k - 1);
  }
}
