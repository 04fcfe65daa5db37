/** Everything the verifiers hash, as the exact bytes (or characters) fed to the hash, with decoders that invert it
    (source_digest.rs, verify.rs of postgres-postgres; verify.rs of csv-postgres). */
module RowCodec {
  import opened Decimal

  type Byte = x: int | 0 <= x < 256

  type I64 = x: int | I64_MIN <= x <= I64_MAX

  // ----------------------------------------------------------- field codecs --

  /** The n low bytes of u, least significant first. */
  function LowBytes(u: nat, n: nat): (b: seq<Byte>)
    ensures |b| == n
  {
    if n == 0 then [] else [u % 256] + LowBytes(u / 256, n - 1)
  }

  function FromLowBytes(b: seq<Byte>): nat {
    if b == [] then 0 else b[0] + 256 * FromLowBytes(b[1..])
  }

  /** `i64::to_le_bytes`: two's complement, eight bytes. */
  function ToLe(x: I64): (b: seq<Byte>)
    ensures |b| == 8
  {
    LowBytes(if x < 0 then x + U64_MAX + 1 else x, 8)
  }

  function FromLe(b: seq<Byte>): int {
    var u := FromLowBytes(b);
    if u > I64_MAX then u - U64_MAX - 1 else u
  }

  function Pow256(n: nat): nat { if n == 0 then 1 else 256 * Pow256(n - 1) }

  lemma {:induction false} LowBytesInvert(u: nat, n: nat)
    requires u < Pow256(n)
    ensures FromLowBytes(LowBytes(u, n)) == u
  {
    if n > 0 {
      assert u / 256 < Pow256(n - 1);
      LowBytesInvert(u / 256, n - 1);
      assert LowBytes(u, n)[1..] == LowBytes(u / 256, n - 1);
    }
  }

  lemma LeInverts(x: I64)
    ensures FromLe(ToLe(x)) == x
  {
    assert Pow256(8) == U64_MAX + 1 by { assert Pow256(4) == 0x1_0000_0000; }
    LowBytesInvert(if x < 0 then x + U64_MAX + 1 else x, 8);
  }

  function Flag(b: bool): Byte { if b then 1 else 0 }

  /** Text up to the first delimiter, and what follows the delimiter. */
  function TakeUntil<E(==)>(s: seq<E>, stop: E): Option<(seq<E>, seq<E>)> {
    if s == [] then None
    else if s[0] == stop then Some(([], s[1..]))
    else match TakeUntil(s[1..], stop)
         case None => None
         case Some(r) => Some(([s[0]] + r.0, r.1))
  }

  lemma {:induction false} TakeUntilStops<E>(text: seq<E>, stop: E, rest: seq<E>)
    requires stop !in text
    ensures TakeUntil(text + [stop] + rest, stop) == Some((text, rest))
  {
    if text == [] {
      assert text + [stop] + rest == [stop] + rest;
    } else {
      assert text[0] in text && text == [text[0]] + text[1..];
      TakeUntilStops(text[1..], stop, rest);
      assert (text + [stop] + rest)[1..] == text[1..] + [stop] + rest;
    }
  }

  // ------------------------------------------------- lists of self-delimiting rows --

  /** Decodes one row and returns what follows it. */
  type Decoder<!E, !T> = seq<E> -> Option<(T, seq<E>)>

  function DecodeAll<E, T>(decode: Decoder<E, T>, s: seq<E>): Option<seq<T>>
    decreases |s|
  {
    if s == [] then Some([])
    else match decode(s)
      case None => None
      case Some(r) =>
        if |r.1| >= |s| then None
        else match DecodeAll(decode, r.1)
          case None => None
          case Some(rows) => Some([r.0] + rows)
  }

  function EncodeAll<E, T>(encode: T -> seq<E>, rows: seq<T>): seq<E> {
    if rows == [] then [] else encode(rows[0]) + EncodeAll(encode, rows[1..])
  }

  /** The decoder inverts the encoder whatever follows. */
  ghost predicate Inverts<E(!new), T(!new)>(decode: Decoder<E, T>, encode: T -> seq<E>, row: T) {
    encode(row) != [] && forall rest :: decode(encode(row) + rest) == Some((row, rest))
  }

  lemma {:induction false} DecodeAllInverts<E(!new), T(!new)>(decode: Decoder<E, T>, encode: T -> seq<E>, rows: seq<T>)
    requires forall r | r in rows :: Inverts(decode, encode, r)
    ensures DecodeAll(decode, EncodeAll(encode, rows)) == Some(rows)
  {
    if rows != [] {
      var rest := EncodeAll(encode, rows[1..]);
      assert Inverts(decode, encode, rows[0]);
      assert decode(encode(rows[0]) + rest) == Some((rows[0], rest));
      DecodeAllInverts(decode, encode, rows[1..]);
      assert rows == [rows[0]] + rows[1..];
    }
  }

  /** Encoding one more row at the end appends its encoding. */
  lemma {:induction false} EncodeAllAppend<E, T>(encode: T -> seq<E>, rows: seq<T>, row: T)
    ensures EncodeAll(encode, rows + [row]) == EncodeAll(encode, rows) + encode(row)
  {
    if rows == [] {
      assert rows + [row] == [row] && [row][1..] == [];
    } else {
      EncodeAllAppend(encode, rows[1..], row);
      assert (rows + [row])[1..] == rows[1..] + [row];
    }
  }

  // ------------------------------------------------------------- source rows --

  /** A source row; its name is the UTF-8 text, byte by byte. */
  datatype SourceRow = SourceRow(customerId: I64, fullName: seq<Byte>, isActive: bool, balanceCents: I64)

  const END: Byte := 255

  /** `encode_row`. */
  function EncodeSource(r: SourceRow): seq<Byte> {
    ToLe(r.customerId) + ([0] + (r.fullName + [0] + ([Flag(r.isActive)] + (ToLe(r.balanceCents) + [END]))))
  }

  function DecodeSource(s: seq<Byte>): Option<(SourceRow, seq<Byte>)> {
    if |s| < 9 || s[8] != 0 then None
    else match TakeUntil(s[9..], 0)
      case None => None
      case Some(r) =>
        if |r.1| < 10 || r.1[0] > 1 || r.1[9] != END then None
        else
          var id, balance := FromLe(s[..8]), FromLe(r.1[1..9]);
          if I64_MIN <= id <= I64_MAX && I64_MIN <= balance <= I64_MAX
          then Some((SourceRow(id, r.0, r.1[0] == 1, balance), r.1[10..])) else None
  }

  /** The bytes one by one: eight of the id, least significant first, a NUL, the name, a NUL, the flag, eight of the
      balance, and the terminator. */
  lemma SourceLayout(r: SourceRow)
    ensures var e, n := EncodeSource(r), |r.fullName|;
      && |e| == n + 20 && e[..8] == ToLe(r.customerId) && e[8] == 0 && e[9..9 + n] == r.fullName && e[9 + n] == 0
      && e[10 + n] == (if r.isActive then 1 else 0) && e[11 + n..19 + n] == ToLe(r.balanceCents) && e[19 + n] == 255
  {
    hide ToLe;
  }

  function Digit(b: seq<Byte>, i: nat): int
    requires i < |b|
  {
    b[i] as int
  }

  /** The eight bytes of an i64 are the digits, base 256 and least significant first, of its two's complement. */
  lemma LeBytes(x: I64)
    ensures |ToLe(x)| == 8
    ensures var b := ToLe(x);
      Digit(b, 0) + 0x100 * Digit(b, 1) + 0x1_0000 * Digit(b, 2) + 0x100_0000 * Digit(b, 3)
      + 0x1_0000_0000 * (Digit(b, 4) + 0x100 * Digit(b, 5) + 0x1_0000 * Digit(b, 6) + 0x100_0000 * Digit(b, 7))
      == (if x < 0 then x + 0x1_0000_0000_0000_0000 else x)
  {
    var u: nat := if x < 0 then x + U64_MAX + 1 else x;
    assert u < Pow256(8) by { assert Pow256(4) == 0x1_0000_0000; }
    LowBytesInvert(u, 8);
    var b := ToLe(x);
    assert b == LowBytes(u, 8) && FromLowBytes([]) == 0;
    hide LowBytes, FromLowBytes, ToLe, Pow256;
    FourDigits(b);
    FourDigits(b[4..]);
    assert b[4..][4..] == [];
  }

  /** Four steps of the reading. */
  lemma FourDigits(b: seq<Byte>)
    requires |b| >= 4
    ensures FromLowBytes(b) == Digit(b, 0) + 0x100 * Digit(b, 1) + 0x1_0000 * Digit(b, 2) + 0x100_0000 * Digit(b, 3)
      + 0x1_0000_0000 * FromLowBytes(b[4..])
  {
    assert b[1..][1..] == b[2..] && b[2..][1..] == b[3..] && b[3..][1..] == b[4..];
    assert FromLowBytes(b) == Digit(b, 0) + 0x100 * FromLowBytes(b[1..]);
    assert FromLowBytes(b[1..]) == Digit(b, 1) + 0x100 * FromLowBytes(b[2..]);
    assert FromLowBytes(b[2..]) == Digit(b, 2) + 0x100 * FromLowBytes(b[3..]);
    assert FromLowBytes(b[3..]) == Digit(b, 3) + 0x100 * FromLowBytes(b[4..]);
  }

  /** PostgreSQL text holds no NUL. */
  predicate NulFree(text: seq<Byte>) { 0 !in text }

  lemma SourceInverts(r: SourceRow)
    requires NulFree(r.fullName)
    ensures Inverts(DecodeSource, EncodeSource, r)
  {
    hide TakeUntil, ToLe, FromLe;
    forall rest ensures DecodeSource(EncodeSource(r) + rest) == Some((r, rest)) {
      var s := EncodeSource(r) + rest;
      var tail := [Flag(r.isActive)] + (ToLe(r.balanceCents) + [END]) + rest;
      assert s[..8] == ToLe(r.customerId) && s[8] == 0;
      assert s[9..] == r.fullName + [0] + tail;
      TakeUntilStops(r.fullName, 0, tail);
      assert tail[1..9] == ToLe(r.balanceCents) && tail[9] == END && tail[10..] == rest;
      LeInverts(r.customerId);
      LeInverts(r.balanceCents);
    }
  }

  /** The bytes `compute` feeds to the hash determine the source content. */
  lemma SourceUniquelyDecodable(a: seq<SourceRow>, b: seq<SourceRow>)
    requires forall r | r in a + b :: NulFree(r.fullName)
    ensures DecodeAll(DecodeSource, EncodeAll(EncodeSource, a)) == Some(a)
    ensures EncodeAll(EncodeSource, a) == EncodeAll(EncodeSource, b) <==> a == b
  {
    forall r | r in a + b ensures Inverts(DecodeSource, EncodeSource, r) { SourceInverts(r); }
    DecodeAllInverts(DecodeSource, EncodeSource, a);
    DecodeAllInverts(DecodeSource, EncodeSource, b);
  }

  /** `compute`: the stream of rows, each appended to the hash input. */
  method Compute(rows: seq<SourceRow>) returns (hashed: seq<Byte>)
    ensures hashed == EncodeAll(EncodeSource, rows)
  {
    hashed := [];
    for i := 0 to |rows|
      invariant hashed == EncodeAll(EncodeSource, rows[..i])
    {
      var buffer := ToLe(rows[i].customerId);
      buffer := buffer + [0];
      buffer := buffer + rows[i].fullName;
      buffer := buffer + [0];
      buffer := buffer + [Flag(rows[i].isActive)];
      buffer := buffer + ToLe(rows[i].balanceCents);
      buffer := buffer + [END];
      assert buffer == EncodeSource(rows[i]);
      EncodeAllAppend(EncodeSource, rows[..i], rows[i]);
      assert rows[..i + 1] == rows[..i] + [rows[i]];
      hashed := hashed + buffer;
    }
    assert rows[..|rows|] == rows;
  }

  // ---------------------------------------------------------- projected rows --

  const FINGERPRINT_LEN := 16

  datatype ProjectedRow = ProjectedRow(
    customerId: I64, displayName: seq<Byte>, loyaltyScore: I64, isPremium: bool, fingerprint: seq<Byte>)

  /** `hash_expected` and `hash_actual`. */
  function EncodeProjected(r: ProjectedRow): seq<Byte> {
    ToLe(r.customerId)
    + (r.displayName + [0] + (ToLe(r.loyaltyScore) + ([Flag(r.isPremium)] + (r.fingerprint + [END]))))
  }

  function DecodeProjected(s: seq<Byte>): Option<(ProjectedRow, seq<Byte>)> {
    if |s| < 8 then None
    else match TakeUntil(s[8..], 0)
      case None => None
      case Some(r) =>
        if |r.1| < 10 + FINGERPRINT_LEN || r.1[8] > 1 || r.1[9 + FINGERPRINT_LEN] != END then None
        else
          var id, score := FromLe(s[..8]), FromLe(r.1[..8]);
          if I64_MIN <= id <= I64_MAX && I64_MIN <= score <= I64_MAX
          then Some((ProjectedRow(id, r.0, score, r.1[8] == 1, r.1[9..9 + FINGERPRINT_LEN]), r.1[10 + FINGERPRINT_LEN..]))
          else None
  }

  /** The bytes one by one: eight of the id, the name, a NUL, eight of the score, the flag, the fingerprint and the
      terminator. */
  lemma ProjectedLayout(r: ProjectedRow)
    ensures var e, n, m := EncodeProjected(r), |r.displayName|, |r.fingerprint|;
      && |e| == n + m + 19 && e[..8] == ToLe(r.customerId) && e[8..8 + n] == r.displayName && e[8 + n] == 0
      && e[9 + n..17 + n] == ToLe(r.loyaltyScore) && e[17 + n] == (if r.isPremium then 1 else 0)
      && e[18 + n..18 + n + m] == r.fingerprint && e[18 + n + m] == 255
  {
    hide ToLe;
  }

  predicate WellFormed(r: ProjectedRow) { NulFree(r.displayName) && |r.fingerprint| == FINGERPRINT_LEN }

  lemma ProjectedInverts(r: ProjectedRow)
    requires WellFormed(r)
    ensures Inverts(DecodeProjected, EncodeProjected, r)
  {
    hide TakeUntil, ToLe, FromLe;
    forall rest ensures DecodeProjected(EncodeProjected(r) + rest) == Some((r, rest)) {
      var s := EncodeProjected(r) + rest;
      var tail := ToLe(r.loyaltyScore) + ([Flag(r.isPremium)] + (r.fingerprint + [END])) + rest;
      assert s[..8] == ToLe(r.customerId);
      assert s[8..] == r.displayName + [0] + tail;
      TakeUntilStops(r.displayName, 0, tail);
      assert tail[..8] == ToLe(r.loyaltyScore) && tail[8] == Flag(r.isPremium);
      assert tail[9..9 + FINGERPRINT_LEN] == r.fingerprint && tail[9 + FINGERPRINT_LEN] == END;
      assert tail[10 + FINGERPRINT_LEN..] == rest;
      LeInverts(r.customerId);
      LeInverts(r.loyaltyScore);
    }
  }

  /** What either digest hashes determines the rows, when every fingerprint has its sixteen bytes. */
  lemma ProjectedUniquelyDecodable(a: seq<ProjectedRow>, b: seq<ProjectedRow>)
    requires forall r | r in a + b :: WellFormed(r)
    ensures DecodeAll(DecodeProjected, EncodeAll(EncodeProjected, a)) == Some(a)
    ensures EncodeAll(EncodeProjected, a) == EncodeAll(EncodeProjected, b) <==> a == b
  {
    forall r | r in a + b ensures Inverts(DecodeProjected, EncodeProjected, r) { ProjectedInverts(r); }
    DecodeAllInverts(DecodeProjected, EncodeProjected, a);
    DecodeAllInverts(DecodeProjected, EncodeProjected, b);
  }

  /** The destination column has no length constraint, and the hash input alone cannot tell two rows from one
      whose fingerprint swallows the second: for any two rows there is a third encoded like both together. */
  lemma LongFingerprintCollides(a: ProjectedRow, b: ProjectedRow)
    ensures var both := a.(fingerprint := a.fingerprint + [END] + EncodeProjected(b)[..|EncodeProjected(b)| - 1]);
      EncodeAll(EncodeProjected, [both]) == EncodeAll(EncodeProjected, [a, b]) && [both] != [a, b]
  {
    hide ToLe;
    var e := EncodeProjected(b);
    assert e == e[..|e| - 1] + [END];
    var both := a.(fingerprint := a.fingerprint + [END] + e[..|e| - 1]);
    assert [a, b][1..] == [b] && [b][1..] == [] && [both][1..] == [];
    assert both.fingerprint + [END] == a.fingerprint + [END] + e;
    assert EncodeProjected(both) == EncodeProjected(a) + e;
  }

  // ---------------------------------------------------------------- CSV rows --

  /** A row of the CSV workload; the time is its RFC 3339 rendering. */
  datatype CsvRow = CsvRow(customerId: I64, name: string, email: string, amount: I64, createdAt: string)

  const NUL: char := '\0'

  /** The row terminator: the character U+00FF, two bytes once encoded as UTF-8. */
  const CSV_END: char := '\U{00FF}'

  /** `canonical_row`. */
  function CanonicalRow(r: CsvRow): string {
    SignedDigits(r.customerId) + [NUL] + (r.name + [NUL] + (r.email + [NUL] + (SignedDigits(r.amount) + [NUL] + (r.createdAt + [CSV_END]))))
  }

  function DecodeCsv(s: string): Option<(CsvRow, string)> {
    match TakeUntil(s, NUL)
    case None => None
    case Some(a) => match TakeUntil(a.1, NUL)
      case None => None
      case Some(b) => match TakeUntil(b.1, NUL)
        case None => None
        case Some(c) => match TakeUntil(c.1, NUL)
          case None => None
          case Some(d) => match TakeUntil(d.1, CSV_END)
            case None => None
            case Some(e) =>
              match (ParseI64(a.0), ParseI64(d.0))
              case (Some(id), Some(amount)) => Some((CsvRow(id, b.0, c.0, amount, e.0), e.1))
              case _ => None
  }

  /** No NUL in the text fields, and no terminator in the rendered time. */
  predicate CsvClean(r: CsvRow) {
    NUL !in r.name && NUL !in r.email && CSV_END !in r.createdAt
  }

  lemma CsvInverts(r: CsvRow)
    requires CsvClean(r)
    ensures Inverts(DecodeCsv, CanonicalRow, r)
  {
    hide TakeUntil, SignedDigits, ParseI64;
    forall rest ensures DecodeCsv(CanonicalRow(r) + rest) == Some((r, rest)) {
      var id, amount := SignedDigits(r.customerId), SignedDigits(r.amount);
      var e := r.createdAt + [CSV_END] + rest;
      var d := amount + [NUL] + e;
      var c := r.email + [NUL] + d;
      var b := r.name + [NUL] + c;
      assert CanonicalRow(r) + rest == id + [NUL] + b;
      TakeUntilStops(id, NUL, b);
      TakeUntilStops(r.name, NUL, c);
      TakeUntilStops(r.email, NUL, d);
      TakeUntilStops(amount, NUL, e);
      TakeUntilStops(r.createdAt, CSV_END, rest);
      ParseSigned(r.customerId);
      ParseSigned(r.amount);
    }
  }

  /** What either side of the CSV verifier hashes determines the rows. */
  lemma CsvUniquelyDecodable(a: seq<CsvRow>, b: seq<CsvRow>)
    requires forall r | r in a + b :: CsvClean(r)
    ensures DecodeAll(DecodeCsv, EncodeAll(CanonicalRow, a)) == Some(a)
    ensures EncodeAll(CanonicalRow, a) == EncodeAll(CanonicalRow, b) <==> a == b
  {
    forall r | r in a + b ensures Inverts(DecodeCsv, CanonicalRow, r) { CsvInverts(r); }
    DecodeAllInverts(DecodeCsv, CanonicalRow, a);
    DecodeAllInverts(DecodeCsv, CanonicalRow, b);
  }
}
