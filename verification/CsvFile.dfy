/** Printing a CSV file, reading it back by section 2 of RFC 4180 (line breaks are LF), and the source side of the
    verifier (generator.rs and verify.rs of csv-postgres). */
module CsvFile {
  import opened Decimal
  import RowCodec

  // -------------------------------------------------------------------- printing --

  /** `quote_csv_field` quotes a field that holds one of these. */
  predicate NeedsQuotes(field: string) { ',' in field || '"' in field || '\n' in field }

  /** `field.replace('"', "\"\"")` */
  function Doubled(field: string): string {
    if field == [] then []
    else (if field[0] == '"' then ['"', '"'] else [field[0]]) + Doubled(field[1..])
  }

  /** `quote_csv_field` */
  function Quote(field: string): string {
    if NeedsQuotes(field) then ['"'] + Doubled(field) + ['"'] else field
  }

  /** The fields of one row, quoted where needed and separated by commas. */
  function Print(fields: seq<string>): string
    requires fields != []
  {
    if |fields| == 1 then Quote(fields[0]) else Quote(fields[0]) + [','] + Print(fields[1..])
  }

  function Line(fields: seq<string>): string
    requires fields != []
  {
    Print(fields) + ['\n']
  }

  // --------------------------------------------------------------------- reading --

  /** A non-escaped field: text up to a comma, a line break or the end; a bare quote or carriage return is malformed. */
  function ReadPlain(s: string): (r: Option<(string, string)>)
    ensures r.Some? ==> |r.value.1| <= |s|
  {
    if s == [] || s[0] == ',' || s[0] == '\n' then Some(([], s))
    else if s[0] == '"' || s[0] == '\r' then None
    else match ReadPlain(s[1..])
      case None => None
      case Some(r) => Some(([s[0]] + r.0, r.1))
  }

  /** The inside of an escaped field, after its opening quote: a doubled quote is one quote, a single one closes. */
  function ReadEscaped(s: string): (r: Option<(string, string)>)
    ensures r.Some? ==> |r.value.1| <= |s|
  {
    if s == [] then None
    else if s[0] == '"' then
      if |s| > 1 && s[1] == '"' then
        match ReadEscaped(s[2..])
        case None => None
        case Some(r) => Some((['"'] + r.0, r.1))
      else Some(([], s[1..]))
    else match ReadEscaped(s[1..])
      case None => None
      case Some(r) => Some(([s[0]] + r.0, r.1))
  }

  /** One field, and what follows it: a comma, a line break or nothing. */
  function ReadField(s: string): (r: Option<(string, string)>)
    ensures r.Some? ==> |r.value.1| <= |s|
  {
    if s != [] && s[0] == '"' then
      match ReadEscaped(s[1..])
      case None => None
      case Some(r) => if r.1 == [] || r.1[0] == ',' || r.1[0] == '\n' then Some(r) else None
    else ReadPlain(s)
  }

  /** One record, and what follows its line break. */
  function ReadRecord(s: string): Option<(seq<string>, string)>
    decreases |s|
  {
    match ReadField(s)
    case None => None
    case Some(f) =>
      if f.1 == [] then Some(([f.0], []))
      else if f.1[0] == '\n' then Some(([f.0], f.1[1..]))
      else match ReadRecord(f.1[1..])
        case None => None
        case Some(r) => Some(([f.0] + r.0, r.1))
  }

  // ------------------------------------------------------------------ round trip --

  /** What survives printing: a carriage return only inside a field that gets quoted for another reason. */
  predicate Printable(field: string) { NeedsQuotes(field) || '\r' !in field }

  predicate Delimited(rest: string) { rest == [] || rest[0] == ',' || rest[0] == '\n' }

  lemma {:induction false} PlainReads(field: string, rest: string)
    requires !NeedsQuotes(field) && Delimited(rest)
    ensures ReadPlain(field + rest) == if '\r' in field then None else Some((field, rest))
  {
    if field == [] {
      assert field + rest == rest;
    } else {
      assert field == [field[0]] + field[1..];
      assert field[0] in field;
      assert forall c | c in field[1..] :: c in field;
      PlainReads(field[1..], rest);
      assert (field + rest)[1..] == field[1..] + rest;
    }
  }

  lemma {:induction false} EscapedReads(field: string, rest: string)
    requires Delimited(rest)
    ensures ReadEscaped(Doubled(field) + ['"'] + rest) == Some((field, rest))
  {
    var s := Doubled(field) + ['"'] + rest;
    if field == [] {
      assert s == ['"'] + rest;
    } else {
      assert field == [field[0]] + field[1..];
      EscapedReads(field[1..], rest);
      if field[0] == '"' {
        assert s[2..] == Doubled(field[1..]) + ['"'] + rest;
      } else {
        assert s[1..] == Doubled(field[1..]) + ['"'] + rest;
      }
    }
  }

  lemma QuotedFieldReads(field: string, rest: string)
    requires Delimited(rest)
    ensures ReadField(['"'] + Doubled(field) + ['"'] + rest) == Some((field, rest))
  {
    hide ReadEscaped, Doubled;
    var s := ['"'] + Doubled(field) + ['"'] + rest;
    assert s[1..] == Doubled(field) + ['"'] + rest;
    EscapedReads(field, rest);
  }

  lemma PlainFieldReads(field: string, rest: string)
    requires !NeedsQuotes(field) && Delimited(rest)
    ensures ReadField(field + rest) == if '\r' in field then None else Some((field, rest))
  {
    hide ReadPlain;
    PlainReads(field, rest);
    assert field != [] ==> field[0] in field;
  }

  lemma FieldReads(field: string, rest: string)
    requires Delimited(rest)
    ensures ReadField(Quote(field) + rest) == if Printable(field) then Some((field, rest)) else None
  {
    hide ReadField, Doubled, Delimited;
    if NeedsQuotes(field) {
      QuotedFieldReads(field, rest);
    } else {
      PlainFieldReads(field, rest);
    }
  }

  /** A printed row reads back as exactly its fields, leaving exactly what followed it, precisely when every field
      with a carriage return also holds a comma, a quote or a line break; otherwise it is malformed. */
  lemma {:induction false} RecordReads(fields: seq<string>, rest: string)
    requires fields != []
    ensures ReadRecord(Line(fields) + rest) ==
      if forall f | f in fields :: Printable(f) then Some((fields, rest)) else None
  {
    hide Quote, ReadField, Printable;
    var s := Line(fields) + rest;
    if |fields| == 1 {
      assert s == Quote(fields[0]) + (['\n'] + rest);
      FieldReads(fields[0], ['\n'] + rest);
      assert fields == [fields[0]];
    } else {
      var tail := Line(fields[1..]) + rest;
      assert s == Quote(fields[0]) + ([','] + tail);
      FieldReads(fields[0], [','] + tail);
      RecordReads(fields[1..], rest);
      assert fields == [fields[0]] + fields[1..];
      assert ([','] + tail)[1..] == tail;
    }
  }

  /** In particular, fields without carriage returns always round-trip. */
  lemma CrFreeRoundTrip(fields: seq<string>, rest: string)
    requires fields != [] && forall f | f in fields :: '\r' !in f
    ensures ReadRecord(Line(fields) + rest) == Some((fields, rest))
  {
    RecordReads(fields, rest);
  }

  // --------------------------------------------------------------- whole files --

  type Record = seq<string>

  function ReadFile(s: string): Option<seq<Record>>
    decreases |s|
  {
    if s == [] then Some([])
    else match ReadRecord(s)
      case None => None
      case Some(r) =>
        if |r.1| >= |s| then None
        else match ReadFile(r.1)
          case None => None
          case Some(rest) => Some([r.0] + rest)
  }

  predicate NoneEmpty(records: seq<Record>) { forall i | 0 <= i < |records| :: records[i] != [] }

  function PrintAll(records: seq<Record>): string
    requires NoneEmpty(records)
  {
    if records == [] then [] else Line(records[0]) + PrintAll(records[1..])
  }

  predicate AllPrintable(records: seq<Record>): (b: bool)
    ensures b ==> NoneEmpty(records)
  {
    NoneEmpty(records) && forall r, f | r in records && f in r :: Printable(f)
  }

  lemma {:induction false} FileReads(records: seq<Record>)
    requires AllPrintable(records)
    ensures ReadFile(PrintAll(records)) == Some(records)
  {
    hide Print, ReadRecord, Printable;
    if records != [] {
      assert records[0] in records;
      assert forall r | r in records[1..] :: r in records;
      RecordReads(records[0], PrintAll(records[1..]));
      FileReads(records[1..]);
      assert records == [records[0]] + records[1..];
    }
  }

  lemma {:induction false} PrintAllAppend(a: seq<Record>, b: seq<Record>)
    requires NoneEmpty(a) && NoneEmpty(b)
    ensures NoneEmpty(a + b) && PrintAll(a + b) == PrintAll(a) + PrintAll(b)
  {
    hide Line;
    if a == [] {
      assert a + b == b;
    } else {
      assert (a + b)[1..] == a[1..] + b;
      PrintAllAppend(a[1..], b);
    }
  }

  // ------------------------------------------------------------------ generation --

  datatype Variant = Normal | MalformedFieldCount | MalformedAmount | QuotedField | EscapedQuoteField

  const FIRST_NAMES := ["Alice", "Bob", "Carol", "Dave", "Erin", "Frank", "Grace", "Heidi", "Ivan", "Judy"]
  const LAST_NAMES := ["Smith", "Johnson", "Lee", "Brown", "Garcia", "Miller", "Davis", "Wilson", "Moore", "Taylor"]

  /** `edge_case_plan` and its first match: the quoted row wins where both fall on the same index. */
  function VariantOf(rows: nat, index: nat): Variant {
    if rows >= 5 && index == rows / 5 then QuotedField
    else if rows >= 4 && index == rows / 4 then EscapedQuoteField
    else Normal
  }

  /** The faults a caller may inject, each at one row index. */
  datatype Faults = Faults(duplicateAt: Option<nat>, malformedAt: Option<nat>, badAmountAt: Option<nat>)

  /** The two draws a row makes: an index of a last name, and an amount. */
  datatype Draw = Draw(last: nat, amount: nat)

  predicate DrawOk(d: Draw) { d.last < 10 && 100 <= d.amount < 1_000_000 }

  /** What the file is generated from. `time` prints the creation time of a row and `parseTime` reads one. */
  datatype Source = Source(idOffset: nat, draws: seq<Draw>, time: nat -> string, parseTime: string -> Option<string>)

  predicate Plain(field: string) { !NeedsQuotes(field) && '\r' !in field }

  /** The draws come from `uniform_range`; a printed time is plain text the verifier can parse. */
  ghost predicate SourceOk(g: Source) {
    && (forall d | d in g.draws :: DrawOk(d))
    && (forall i: nat :: Plain(g.time(i)) && g.parseTime(g.time(i)).Some?)
  }

  /** `base_row`. */
  datatype BaseRow = BaseRow(id: nat, name: string, email: string, amount: nat, createdAt: string)

  function BaseRowOf(g: Source, index: nat): BaseRow
    requires 1 <= index <= |g.draws| && DrawOk(g.draws[index - 1])
  {
    var d := g.draws[index - 1];
    var id := g.idOffset + index;
    BaseRow(id, FIRST_NAMES[index % 10] + " " + LAST_NAMES[d.last], "customer" + Digits(id) + "@example.test", d.amount, g.time(index))
  }

  const BAD_AMOUNT := "NOT_A_NUMBER"

  /** `write_row`, as the text it writes; the two edge variants write their quotes by hand. */
  function WriteRow(v: Variant, r: BaseRow): string {
    var tail := r.email + [','] + (Digits(r.amount) + [','] + r.createdAt);
    match v
    case Normal => Digits(r.id) + [','] + (Quote(r.name) + [','] + tail) + ['\n']
    case MalformedFieldCount => Digits(r.id) + [','] + (Quote(r.name) + [','] + (r.email + [','] + Digits(r.amount))) + ['\n']
    case MalformedAmount =>
      Digits(r.id) + [','] + (Quote(r.name) + [','] + (r.email + [','] + (BAD_AMOUNT + [','] + r.createdAt))) + ['\n']
    case QuotedField =>
      Digits(r.id) + [','] + (['"'] + (PREFIX + r.name) + ['"'] + [','] + tail) + ['\n']
    case EscapedQuoteField =>
      Digits(r.id) + [','] + (['"'] + (r.name + [' ', '"', '"'] + EPITHET + ['"', '"']) + ['"'] + [','] + tail) + ['\n']
  }

  /** The fields that text stands for. */
  function FieldsOf(v: Variant, r: BaseRow): (f: Record)
    ensures f != []
  {
    match v
    case Normal => [Digits(r.id), r.name, r.email, Digits(r.amount), r.createdAt]
    case MalformedFieldCount => [Digits(r.id), r.name, r.email, Digits(r.amount)]
    case MalformedAmount => [Digits(r.id), r.name, r.email, BAD_AMOUNT, r.createdAt]
    case QuotedField => [Digits(r.id), PREFIX + r.name, r.email, Digits(r.amount), r.createdAt]
    case EscapedQuoteField => [Digits(r.id), r.name + [' ', '"'] + EPITHET + ['"'], r.email, Digits(r.amount), r.createdAt]
  }

  predicate PlainRow(r: BaseRow) { Plain(r.name) && Plain(r.email) && Plain(r.createdAt) }

  lemma PlainDigits(n: nat)
    ensures Plain(Digits(n))
  {
  }

  lemma {:induction false} DoubledConcat(a: string, b: string)
    ensures Doubled(a + b) == Doubled(a) + Doubled(b)
  {
    if a == [] {
      assert a + b == b;
    } else {
      assert (a + b)[1..] == a[1..] + b;
      DoubledConcat(a[1..], b);
    }
  }

  lemma {:induction false} DoubledPlain(s: string)
    requires '"' !in s
    ensures Doubled(s) == s
  {
    if s != [] {
      assert s[0] in s && s == [s[0]] + s[1..];
      DoubledPlain(s[1..]);
    }
  }

  const PREFIX := "Smith, "
  const EPITHET := "the great"

  /** The two edge variants write their quotes by hand, and write what the quoting function would. */
  lemma PrefixedName(name: string)
    requires Plain(name)
    ensures Quote(PREFIX + name) == ['"'] + (PREFIX + name) + ['"']
  {
    hide Doubled;
    var a := PREFIX + name;
    assert a[5] == ',' && ',' in a;
    DoubledPlain(a);
  }

  lemma QuoteDoubled()
    ensures Doubled(['"']) == ['"', '"']
  {
  }

  lemma EpithetDoubled()
    ensures Doubled(['"'] + (EPITHET + ['"'])) == ['"', '"'] + (EPITHET + ['"', '"'])
  {
    DoubledConcat(['"'], EPITHET + ['"']);
    DoubledConcat(EPITHET, ['"']);
    DoubledPlain(EPITHET);
    QuoteDoubled();
  }

  lemma EpithetName(name: string)
    requires Plain(name)
    ensures Quote(name + [' ', '"'] + EPITHET + ['"']) == ['"'] + (name + [' ', '"', '"'] + EPITHET + ['"', '"']) + ['"']
  {
    hide Doubled;
    var b, inner := name + [' ', '"'] + EPITHET + ['"'], ['"'] + (EPITHET + ['"']);
    assert b[|name| + 1] == '"' && '"' in b;
    assert b == (name + [' ']) + inner;
    DoubledConcat(name + [' '], inner);
    DoubledPlain(name + [' ']);
    EpithetDoubled();
    assert (name + [' ']) + (['"', '"'] + (EPITHET + ['"', '"'])) == name + [' ', '"', '"'] + EPITHET + ['"', '"'];
  }

  lemma NotQuoted(field: string)
    requires Plain(field)
    ensures Quote(field) == field && Printable(field)
  {
  }

  lemma PrintFour(a: string, b: string, c: string, d: string)
    ensures Print([a, b, c, d]) == Quote(a) + [','] + (Quote(b) + [','] + (Quote(c) + [','] + Quote(d)))
  {
    hide Quote;
    assert [a, b, c, d][1..] == [b, c, d] && [b, c, d][1..] == [c, d] && [c, d][1..] == [d];
    assert Print([d]) == Quote(d) && Print([c, d]) == Quote(c) + [','] + Print([d]) && Print([b, c, d]) == Quote(b) + [','] + Print([c, d]);
  }

  lemma PrintFive(a: string, b: string, c: string, d: string, e: string)
    ensures Print([a, b, c, d, e]) == Quote(a) + [','] + (Quote(b) + [','] + (Quote(c) + [','] + (Quote(d) + [','] + Quote(e))))
  {
    hide Quote;
    PrintFour(b, c, d, e);
    assert [a, b, c, d, e][1..] == [b, c, d, e];
  }

  /** The hand-written line of every variant is the printed line of its fields. */
  lemma WriteRowPrints(v: Variant, r: BaseRow)
    requires PlainRow(r)
    ensures WriteRow(v, r) == Line(FieldsOf(v, r))
    ensures forall f | f in FieldsOf(v, r) :: Printable(f)
  {
    PlainDigits(r.id);
    PlainDigits(r.amount);
    NotQuoted(Digits(r.id));
    NotQuoted(Digits(r.amount));
    NotQuoted(r.name);
    NotQuoted(r.email);
    NotQuoted(r.createdAt);
    PrefixedName(r.name);
    EpithetName(r.name);
    BadAmountIsPlain();
    NotQuoted(BAD_AMOUNT);
    hide Digits, Doubled, Quote, Plain, Printable, Print;
    match v
    case Normal => PrintFive(Digits(r.id), r.name, r.email, Digits(r.amount), r.createdAt);
    case MalformedFieldCount => PrintFour(Digits(r.id), r.name, r.email, Digits(r.amount));
    case MalformedAmount => PrintFive(Digits(r.id), r.name, r.email, BAD_AMOUNT, r.createdAt);
    case QuotedField =>
      PrintFive(Digits(r.id), PREFIX + r.name, r.email, Digits(r.amount), r.createdAt);
      QuotedIsPrintable(PREFIX + r.name);
    case EscapedQuoteField =>
      PrintFive(Digits(r.id), r.name + [' ', '"'] + EPITHET + ['"'], r.email, Digits(r.amount), r.createdAt);
      QuotedIsPrintable(r.name + [' ', '"'] + EPITHET + ['"']);
  }

  lemma BadAmountIsPlain()
    ensures Plain(BAD_AMOUNT)
  {
  }

  lemma QuotedIsPrintable(field: string)
    requires Quote(field) != field
    ensures Printable(field)
  {
  }

  lemma PlainAppend(a: string, b: string)
    requires Plain(a) && Plain(b)
    ensures Plain(a + b)
  {
  }

  /** Letters only: every name in the lists is one word. */
  predicate Word(s: string) { forall k | 0 <= k < |s| :: s[k] >= 'A' }

  lemma WordIsPlain(s: string)
    requires Word(s)
    ensures Plain(s)
  {
  }

  lemma NamesArePlain(i: nat, j: nat)
    requires i < 10 && j < 10
    ensures Plain(FIRST_NAMES[i]) && Plain(LAST_NAMES[j])
  {
    hide Plain;
    assert Word("Alice") && Word("Bob") && Word("Carol") && Word("Dave") && Word("Erin");
    assert Word("Frank") && Word("Grace") && Word("Heidi") && Word("Ivan") && Word("Judy");
    assert Word("Smith") && Word("Johnson") && Word("Lee") && Word("Brown") && Word("Garcia");
    assert Word("Miller") && Word("Davis") && Word("Wilson") && Word("Moore") && Word("Taylor");
    hide Word;
    assert Word(FIRST_NAMES[i]) && Word(LAST_NAMES[j]);
    WordIsPlain(FIRST_NAMES[i]);
    WordIsPlain(LAST_NAMES[j]);
  }

  lemma PartsArePlain()
    ensures Plain(" ") && Plain("customer") && Plain("@example.test")
  {
  }

  lemma BaseRowIsPlain(g: Source, index: nat)
    requires 1 <= index <= |g.draws| && SourceOk(g) && DrawOk(g.draws[index - 1])
    ensures PlainRow(BaseRowOf(g, index))
  {
    var d := g.draws[index - 1];
    NamesArePlain(index % 10, d.last);
    PartsArePlain();
    PlainDigits(g.idOffset + index);
    hide Plain, Digits;
    PlainAppend(FIRST_NAMES[index % 10], " ");
    PlainAppend(FIRST_NAMES[index % 10] + " ", LAST_NAMES[d.last]);
    PlainAppend("customer", Digits(g.idOffset + index));
    PlainAppend("customer" + Digits(g.idOffset + index), "@example.test");
  }

  /** The variant a row is written as, after the injected faults. */
  function Chosen(rows: nat, faults: Faults, index: nat): Variant {
    if faults.malformedAt == Some(index) then MalformedFieldCount
    else if faults.badAmountAt == Some(index) then MalformedAmount
    else VariantOf(rows, index)
  }

  /** The records row `index` contributes: its own, and before the next one perhaps its predecessor again. */
  function Emitted(g: Source, rows: nat, faults: Faults, index: nat): seq<Record>
    requires 1 <= index <= |g.draws| && SourceOk(g)
  {
    DrawsOk(g, index);
    [FieldsOf(Chosen(rows, faults, index), BaseRowOf(g, index))]
    + if faults.duplicateAt == Some(index) && index > 1 then [FieldsOf(Normal, BaseRowOf(g, index - 1))] else []
  }

  lemma DrawsOk(g: Source, index: nat)
    requires 1 <= index <= |g.draws| && SourceOk(g)
    ensures DrawOk(g.draws[index - 1]) && (index > 1 ==> DrawOk(g.draws[index - 2]))
  {
    assert g.draws[index - 1] in g.draws;
    if index > 1 { assert g.draws[index - 2] in g.draws; }
  }

  ghost function EmittedTo(g: Source, rows: nat, faults: Faults, n: nat): seq<Record>
    requires n <= |g.draws| && SourceOk(g)
  {
    if n == 0 then [] else EmittedTo(g, rows, faults, n - 1) + Emitted(g, rows, faults, n)
  }

  lemma EmittedPrintable(g: Source, rows: nat, faults: Faults, index: nat)
    requires 1 <= index <= |g.draws| && SourceOk(g)
    ensures AllPrintable(Emitted(g, rows, faults, index))
    ensures PrintAll(Emitted(g, rows, faults, index)) ==
      (DrawsOk(g, index); WriteRow(Chosen(rows, faults, index), BaseRowOf(g, index)))
      + (if faults.duplicateAt == Some(index) && index > 1 then WriteRow(Normal, BaseRowOf(g, index - 1)) else "")
  {
    hide Printable, Line, WriteRow, FieldsOf, BaseRowOf, Chosen, PlainRow, SourceOk;
    DrawsOk(g, index);
    BaseRowIsPlain(g, index);
    WriteRowPrints(Chosen(rows, faults, index), BaseRowOf(g, index));
    var a := FieldsOf(Chosen(rows, faults, index), BaseRowOf(g, index));
    assert [a][1..] == [];
    assert PrintAll([a]) == Line(a) + [];
    if faults.duplicateAt == Some(index) && index > 1 {
      BaseRowIsPlain(g, index - 1);
      WriteRowPrints(Normal, BaseRowOf(g, index - 1));
      var b := FieldsOf(Normal, BaseRowOf(g, index - 1));
      assert [b][1..] == [] && [a] + [b] == [a, b] && [a, b][1..] == [b];
      assert PrintAll([b]) == Line(b) + [];
    }
  }

  lemma AllPrintableAppend(a: seq<Record>, b: seq<Record>)
    requires AllPrintable(a) && AllPrintable(b)
    ensures AllPrintable(a + b) && PrintAll(a + b) == PrintAll(a) + PrintAll(b)
  {
    hide Printable;
    PrintAllAppend(a, b);
  }

  /** `generate`: whatever faults are injected, the file reads back as exactly the records emitted. */
  method Generate(g: Source, rows: nat, faults: Faults) returns (file: string)
    requires rows <= |g.draws| && SourceOk(g)
    ensures ReadFile(file) == Some(EmittedTo(g, rows, faults, rows))
  {
    hide Printable, Line, WriteRow, BaseRowOf, Chosen, ReadFile, SourceOk, Emitted, AllPrintable, PrintAll, NoneEmpty;
    file := "";
    var lastRow: Option<BaseRow> := None;
    assert AllPrintable([]) && PrintAll([]) == "" by { NothingPrinted(); }
    for index := 1 to rows + 1
      invariant AllPrintable(EmittedTo(g, rows, faults, index - 1))
      invariant file == PrintAll(EmittedTo(g, rows, faults, index - 1))
      invariant if index == 1 then lastRow == None else 
        index - 1 <= |g.draws| && DrawOk(g.draws[index - 2]) && lastRow == Some(BaseRowOf(g, index - 1))
    {
      DrawsOk(g, index);
      EmittedPrintable(g, rows, faults, index);
      AllPrintableAppend(EmittedTo(g, rows, faults, index - 1), Emitted(g, rows, faults, index));
      var row := BaseRowOf(g, index);
      file := file + WriteRow(Chosen(rows, faults, index), row);
      if faults.duplicateAt == Some(index) && lastRow.Some? {
        file := file + WriteRow(Normal, lastRow.value);
      }
      lastRow := Some(row);
    }
    FileReads(EmittedTo(g, rows, faults, rows));
  }

  lemma NothingPrinted()
    ensures AllPrintable([]) && NoneEmpty([]) && PrintAll([]) == ""
  {
  }

  // ------------------------------------------------------------- the verifier's side --

  /** The row a record parses to, if its field count and its three typed fields are right. */
  function ParseRecord(r: Record, parseTime: string -> Option<string>): Option<RowCodec.CsvRow> {
    if |r| != 5 then None
    else match (ParseI64(r[0]), ParseI64(r[3]), parseTime(r[4]))
      case (Some(id), Some(amount), Some(time)) => Some(RowCodec.CsvRow(id, r[1], r[2], amount, time))
      case _ => None
  }

  /** Every record parses and the ids strictly ascend. */
  ghost predicate Accepted(records: seq<Record>, parseTime: string -> Option<string>) {
    && (forall i | 0 <= i < |records| :: ParseRecord(records[i], parseTime).Some?)
    && (forall i, j | 0 <= i < j < |records| ::
          ParseRecord(records[i], parseTime).value.customerId < ParseRecord(records[j], parseTime).value.customerId)
  }

  ghost function ParsedRows(records: seq<Record>, parseTime: string -> Option<string>): (rows: seq<RowCodec.CsvRow>)
    requires forall i | 0 <= i < |records| :: ParseRecord(records[i], parseTime).Some?
    ensures |rows| == |records|
  {
    seq(|records|, i requires 0 <= i < |records| => ParseRecord(records[i], parseTime).value)
  }

  /** `source_digest`: the row count and the text that is hashed, or None at the first bad or out-of-order row. */
  method SourceDigest(records: seq<Record>, parseTime: string -> Option<string>) returns (r: Option<(nat, string)>)
    ensures r.Some? <==> Accepted(records, parseTime)
    ensures r.Some? ==> r.value == (|records|, RowCodec.EncodeAll(RowCodec.CanonicalRow, ParsedRows(records, parseTime)))
  {
    hide ParseI64, RowCodec.CanonicalRow;
    var hashed, last: Option<int> := "", None;
    for i := 0 to |records|
      invariant Accepted(records[..i], parseTime)
      invariant last == if i == 0 then None else Some(ParseRecord(records[i - 1], parseTime).value.customerId)
      invariant hashed == RowCodec.EncodeAll(RowCodec.CanonicalRow, ParsedRows(records[..i], parseTime))
    {
      var record := records[i];
      if |record| != 5 { return None; }
      var id := ParseI64(record[0]);
      if id.None? { return None; }
      if last.Some? && id.value <= last.value {
        assert ParseRecord(records[i], parseTime).Some? ==> !(ParseRecord(records[i - 1], parseTime).value.customerId < id.value);
        return None;
      }
      var amount := ParseI64(record[3]);
      if amount.None? { return None; }
      var time := parseTime(record[4]);
      if time.None? { return None; }
      var row := RowCodec.CsvRow(id.value, record[1], record[2], amount.value, time.value);
      assert ParseRecord(records[i], parseTime) == Some(row);
      AcceptedNext(records, i, parseTime);
      RowCodec.EncodeAllAppend(RowCodec.CanonicalRow, ParsedRows(records[..i], parseTime), row);
      assert ParsedRows(records[..i + 1], parseTime) == ParsedRows(records[..i], parseTime) + [row];
      hashed := hashed + RowCodec.CanonicalRow(row);
      last := Some(id.value);
    }
    assert records[..|records|] == records;
    return Some((|records|, hashed));
  }

  lemma AcceptedNext(records: seq<Record>, i: nat, parseTime: string -> Option<string>)
    requires i < |records| && Accepted(records[..i], parseTime) && ParseRecord(records[i], parseTime).Some?
    requires i > 0 ==> (
      && ParseRecord(records[i - 1], parseTime).Some?
      && ParseRecord(records[i - 1], parseTime).value.customerId < ParseRecord(records[i], parseTime).value.customerId)
    ensures Accepted(records[..i + 1], parseTime)
  {
    hide ParseRecord;
    var a, b := records[..i], records[..i + 1];
    assert forall k | 0 <= k < i :: b[k] == a[k];
    assert i > 0 ==> a[i - 1] == records[i - 1];
  }

  // ------------------------------------------------------------- when it accepts --

  lemma DigitsParse(n: nat)
    ensures ParseI64(Digits(n)) == if n <= I64_MAX then Some(n) else None
  {
    ParseSigned(n);
  }

  lemma BadAmountFails()
    ensures ParseI64(BAD_AMOUNT) == None
  {
    assert BAD_AMOUNT[0] == 'N';
  }

  /** A row's own record parses exactly when its id fits and no fault was injected into it. */
  lemma OwnRecord(g: Source, v: Variant, index: nat)
    requires 1 <= index <= |g.draws| && SourceOk(g) && DrawOk(g.draws[index - 1])
    ensures var r := ParseRecord(FieldsOf(v, BaseRowOf(g, index)), g.parseTime);
      && (r.Some? <==> g.idOffset + index <= I64_MAX && !v.MalformedFieldCount? && !v.MalformedAmount?)
      && (r.Some? ==> r.value.customerId == g.idOffset + index)
  {
    hide Digits, ParseI64, Plain;
    DigitsParse(g.idOffset + index);
    DigitsParse(g.draws[index - 1].amount);
    BadAmountFails();
  }

  lemma {:induction false} EmittedSplit(g: Source, rows: nat, faults: Faults, index: nat, n: nat) returns (rest: seq<Record>)
    requires 1 <= index <= n <= |g.draws| && SourceOk(g)
    ensures EmittedTo(g, rows, faults, n) == EmittedTo(g, rows, faults, index - 1) + Emitted(g, rows, faults, index) + rest
  {
    hide Emitted, SourceOk;
    if index == n {
      rest := [];
    } else {
      rest := EmittedSplit(g, rows, faults, index, n - 1);
      rest := rest + Emitted(g, rows, faults, n);
    }
  }

  predicate Hits(at: Option<nat>, low: nat, rows: nat) { at.Some? && low <= at.value <= rows }

  predicate Faultless(faults: Faults, rows: nat) {
    !Hits(faults.malformedAt, 1, rows) && !Hits(faults.badAmountAt, 1, rows) && !Hits(faults.duplicateAt, 2, rows)
  }

  /** Without a fault that hits a row, row i is record i. */
  lemma {:induction false} FaultlessRecords(g: Source, rows: nat, faults: Faults, n: nat)
    requires n <= rows <= |g.draws| && SourceOk(g) && Faultless(faults, rows)
    ensures |EmittedTo(g, rows, faults, n)| == n
    ensures forall i | 0 <= i < n ::
      DrawOk(g.draws[i]) && EmittedTo(g, rows, faults, n)[i] == FieldsOf(VariantOf(rows, i + 1), BaseRowOf(g, i + 1))
  {
    hide FieldsOf, BaseRowOf;
    if n > 0 {
      FaultlessRecords(g, rows, faults, n - 1);
      DrawsOk(g, n);
    }
  }

  /** A fault that hits a row makes the verifier refuse the file. */
  lemma FaultRefused(g: Source, rows: nat, faults: Faults, index: nat)
    requires 1 <= index <= rows <= |g.draws| && SourceOk(g)
    requires faults.malformedAt == Some(index) || faults.badAmountAt == Some(index) || (faults.duplicateAt == Some(index) && index > 1)
    ensures !Accepted(EmittedTo(g, rows, faults, rows), g.parseTime)
  {
    hide FieldsOf, BaseRowOf, ParseRecord, SourceOk, DrawOk;
    DrawsOk(g, index);
    var rest := EmittedSplit(g, rows, faults, index, rows);
    var all, k := EmittedTo(g, rows, faults, rows), |EmittedTo(g, rows, faults, index - 1)|;
    assert all[k] == FieldsOf(Chosen(rows, faults, index), BaseRowOf(g, index));
    OwnRecord(g, Chosen(rows, faults, index), index);
    if faults.duplicateAt == Some(index) && index > 1 {
      assert all[k + 1] == FieldsOf(Normal, BaseRowOf(g, index - 1));
      OwnRecord(g, Normal, index - 1);
    }
  }

  /** The generated file passes the verifier's field and order checks exactly when every id fits a bigint and no
      injected fault hits a row (a duplicate needs a predecessor to repeat). */
  lemma AcceptedExactly(g: Source, rows: nat, faults: Faults)
    requires rows <= |g.draws| && SourceOk(g)
    ensures Accepted(EmittedTo(g, rows, faults, rows), g.parseTime) <==>
      (rows == 0 || g.idOffset + rows <= I64_MAX) && Faultless(faults, rows)
    ensures Faultless(faults, rows) ==> |EmittedTo(g, rows, faults, rows)| == rows
  {
    hide FieldsOf, BaseRowOf, ParseRecord, SourceOk, DrawOk, EmittedTo;
    if Hits(faults.malformedAt, 1, rows) { FaultRefused(g, rows, faults, faults.malformedAt.value); }
    if Hits(faults.badAmountAt, 1, rows) { FaultRefused(g, rows, faults, faults.badAmountAt.value); }
    if Hits(faults.duplicateAt, 2, rows) { FaultRefused(g, rows, faults, faults.duplicateAt.value); }
    if Faultless(faults, rows) {
      FaultlessRecords(g, rows, faults, rows);
      forall i | 0 <= i < rows
        ensures var r := ParseRecord(EmittedTo(g, rows, faults, rows)[i], g.parseTime);
          (r.Some? <==> g.idOffset + i + 1 <= I64_MAX) && (r.Some? ==> r.value.customerId == g.idOffset + i + 1)
      {
        OwnRecord(g, VariantOf(rows, i + 1), i + 1);
      }
      assert rows > 0 ==> (ParseRecord(EmittedTo(g, rows, faults, rows)[rows - 1], g.parseTime).Some? <==> g.idOffset + rows <= I64_MAX);
    }
  }

  // ---------------------------------------------------------- what is hashed --

  /** The name a row is imported under: two drawn words, with a prefix in one row and an epithet in another. */
  function NameOf(g: Source, rows: nat, index: nat): string
    requires 1 <= index <= |g.draws| && g.draws[index - 1].last < 10
  {
    var words := FIRST_NAMES[index % 10] + " " + LAST_NAMES[g.draws[index - 1].last];
    if rows >= 5 && index == rows / 5 then "Smith, " + words
    else if rows >= 4 && index == rows / 4 then words + [' ', '"'] + "the great" + ['"']
    else words
  }

  /** One row of the hashed text, part by part: id, name, address, amount and time, each but the last followed by a
      NUL, the last by U+00FF. */
  function HashedRow(g: Source, rows: nat, index: nat): string
    requires 1 <= index <= |g.draws| && g.draws[index - 1].last < 10 && g.parseTime(g.time(index)).Some?
  {
    Digits(g.idOffset + index) + ['\0'] + NameOf(g, rows, index) + ['\0']
    + ("customer" + Digits(g.idOffset + index) + "@example.test") + ['\0'] + Digits(g.draws[index - 1].amount) + ['\0']
    + g.parseTime(g.time(index)).value + ['\U{00FF}']
  }

  ghost function HashedText(g: Source, rows: nat, n: nat): string
    requires n <= |g.draws| && SourceOk(g)
  {
    if n == 0 then "" else (assert g.draws[n - 1] in g.draws; HashedText(g, rows, n - 1) + HashedRow(g, rows, n))
  }

  lemma FieldsAgree(g: Source, rows: nat, index: nat)
    requires 1 <= index <= |g.draws| && DrawOk(g.draws[index - 1])
    ensures FieldsOf(VariantOf(rows, index), BaseRowOf(g, index)) == [
      Digits(g.idOffset + index), NameOf(g, rows, index), "customer" + Digits(g.idOffset + index) + "@example.test",
      Digits(g.draws[index - 1].amount), g.time(index)]
  {
    hide Digits;
  }

  lemma RowHashed(g: Source, rows: nat, index: nat)
    requires 1 <= index <= |g.draws| && SourceOk(g) && DrawOk(g.draws[index - 1]) && g.idOffset + index <= I64_MAX
    ensures var r := ParseRecord(FieldsOf(VariantOf(rows, index), BaseRowOf(g, index)), g.parseTime);
      r.Some? && RowCodec.CanonicalRow(r.value) == HashedRow(g, rows, index)
  {
    hide Digits, ParseI64, Plain, FieldsOf, BaseRowOf, VariantOf, NameOf, SignedDigits;
    FieldsAgree(g, rows, index);
    var id, amount := g.idOffset + index, g.draws[index - 1].amount;
    DigitsParse(id);
    DigitsParse(amount);
    PlainIsSigned(id);
    PlainIsSigned(amount);
    Regroup(Digits(id), NameOf(g, rows, index), "customer" + Digits(id) + "@example.test", Digits(amount), g.parseTime(g.time(index)).value);
  }

  lemma PlainIsSigned(n: nat)
    ensures SignedDigits(n) == Digits(n)
  {
  }

  lemma Regroup(a: string, b: string, c: string, d: string, e: string)
    ensures a + ['\0'] + (b + ['\0'] + (c + ['\0'] + (d + ['\0'] + (e + ['\U{00FF}']))))
      == a + ['\0'] + b + ['\0'] + c + ['\0'] + d + ['\0'] + e + ['\U{00FF}']
  {
  }

  /** The verifier's hashed text over the records of a faultless file. */
  lemma {:induction false} TextHashed(g: Source, rows: nat, faults: Faults, n: nat)
    requires n <= rows <= |g.draws| && SourceOk(g) && Faultless(faults, rows) && (rows == 0 || g.idOffset + rows <= I64_MAX)
    ensures |EmittedTo(g, rows, faults, n)| == n
    ensures forall i | 0 <= i < n :: ParseRecord(EmittedTo(g, rows, faults, n)[i], g.parseTime).Some?
    ensures RowCodec.EncodeAll(RowCodec.CanonicalRow, ParsedRows(EmittedTo(g, rows, faults, n), g.parseTime)) == HashedText(g, rows, n)
  {
    hide FieldsOf, BaseRowOf, ParseRecord, HashedRow, RowCodec.CanonicalRow;
    FaultlessRecords(g, rows, faults, n);
    if n > 0 {
      DrawsOk(g, n);
      TextHashed(g, rows, faults, n - 1);
      FaultlessRecords(g, rows, faults, n - 1);
      RowHashed(g, rows, n);
      var before, all := EmittedTo(g, rows, faults, n - 1), EmittedTo(g, rows, faults, n);
      assert all == before + [all[n - 1]];
      var row := ParseRecord(all[n - 1], g.parseTime).value;
      assert ParsedRows(all, g.parseTime) == ParsedRows(before, g.parseTime) + [row];
      RowCodec.EncodeAllAppend(RowCodec.CanonicalRow, ParsedRows(before, g.parseTime), row);
    }
  }

  /** Generate, then verify: the file is accepted exactly when its ids fit and no fault hits a row, and what is then
      hashed is the drawn data itself. */
  method GenerateAndDigest(g: Source, rows: nat, faults: Faults) returns (r: Option<(nat, string)>)
    requires rows <= |g.draws| && SourceOk(g)
    ensures r.Some? <==> (rows == 0 || g.idOffset + rows <= I64_MAX) && Faultless(faults, rows)
    ensures r.Some? ==> r.value == (rows, HashedText(g, rows, rows))
  {
    hide EmittedTo, ReadFile, SourceOk, HashedText, ParseRecord;
    var file := Generate(g, rows, faults);
    var records := ReadFile(file);
    r := SourceDigest(records.value, g.parseTime);
    AcceptedExactly(g, rows, faults);
    if r.Some? { TextHashed(g, rows, faults, rows); }
  }
}
