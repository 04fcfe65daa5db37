/** Decimal text: what Rust's `{n}`, `{n:06}` and `{n:04}` print, and what `str::parse` reads back. */
module Decimal {
  const U64_MAX: nat := 0xFFFF_FFFF_FFFF_FFFF
  const I64_MAX: int := 0x7FFF_FFFF_FFFF_FFFF
  const I64_MIN: int := -0x8000_0000_0000_0000

  datatype Option<+T> = None | Some(value: T)

  predicate IsDigit(c: char) { '0' <= c <= '9' }

  predicate AllDigits(s: string) { forall i | 0 <= i < |s| :: IsDigit(s[i]) }

  function DigitChar(d: nat): (c: char)
    requires d < 10
    ensures IsDigit(c) && c as int == 48 + d
  {
    (48 + d) as char
  }

  /** `{n}` */
  function Digits(n: nat): (s: string)
    ensures |s| >= 1 && AllDigits(s)
    ensures n > 0 ==> s[0] != '0'
  {
    if n < 10 then [DigitChar(n)] else Digits(n / 10) + [DigitChar(n % 10)]
  }

  function Zeros(k: nat): (s: string)
    ensures |s| == k && AllDigits(s) && forall i | 0 <= i < k :: s[i] == '0'
  {
    seq(k, _ => '0')
  }

  /** `{n:0w$}` */
  function Padded(n: nat, w: nat): (s: string)
    ensures |s| >= 1 && |s| >= w && AllDigits(s)
  {
    var d := Digits(n);
    if |d| < w then Zeros(w - |d|) + d else d
  }

  /** The number a digit string denotes. */
  function Value(s: string): nat
    requires AllDigits(s)
  {
    if s == [] then 0 else Value(s[..|s| - 1]) * 10 + (s[|s| - 1] as int - 48)
  }

  /** `text.parse::<u64>()` on a text the caller has already checked to be nonempty digits. */
  function ParseU64(s: string): Option<nat> {
    if s == [] || !AllDigits(s) || Value(s) > U64_MAX then None else Some(Value(s))
  }

  lemma {:induction false} ValueOfDigits(n: nat)
    ensures Value(Digits(n)) == n
  {
    if n >= 10 {
      ValueOfDigits(n / 10);
      assert Digits(n)[..|Digits(n)| - 1] == Digits(n / 10);
    }
  }

  lemma {:induction false} ValueOfZerosPrefix(k: nat, s: string)
    requires AllDigits(s)
    ensures AllDigits(Zeros(k) + s) && Value(Zeros(k) + s) == Value(s)
  {
    var t := Zeros(k) + s;
    if s != [] {
      ValueOfZerosPrefix(k, s[..|s| - 1]);
      assert t[..|t| - 1] == Zeros(k) + s[..|s| - 1];
    } else if k > 0 {
      ValueOfZerosPrefix(k - 1, []);
      assert t[..|t| - 1] == Zeros(k - 1) + [];
    }
  }

  /** Padding changes the text, never the number. */
  lemma ValueOfPadded(n: nat, w: nat)
    ensures Value(Padded(n, w)) == n
  {
    ValueOfDigits(n);
    hide Digits, Value;
    var d := Digits(n);
    if |d| < w { ValueOfZerosPrefix(w - |d|, d); }
  }

  /** Printing then parsing gives the number back. */
  lemma ParsePadded(n: nat, w: nat)
    requires n <= U64_MAX
    ensures ParseU64(Padded(n, w)) == Some(n)
  {
    ValueOfPadded(n, w);
  }

  function Pow10(k: nat): nat { if k == 0 then 1 else 10 * Pow10(k - 1) }

  /** A number below 10^k has at most k digits (k >= 1). */
  lemma {:induction false} DigitsLength(n: nat, k: nat)
    requires 1 <= k && n < Pow10(k)
    ensures |Digits(n)| <= k
  {
    if n >= 10 { DigitsLength(n / 10, k - 1); }
  }

  // ---------------------------------------------------------------- signed --

  /** `{n}` for a signed number. */
  function SignedDigits(n: int): (s: string)
    ensures |s| >= 1 && forall c | c in s :: IsDigit(c) || c == '-'
  {
    if n < 0 then "-" + Digits(-n) else Digits(n)
  }

  /** `text.parse::<i64>()`: one optional sign, then digits, in range. */
  function ParseI64(s: string): (r: Option<int>)
    ensures r.Some? ==> I64_MIN <= r.value <= I64_MAX
  {
    if s == [] then None
    else if s[0] == '-' then
      (if |s| > 1 && AllDigits(s[1..]) && Value(s[1..]) <= I64_MAX + 1 then Some(0 - (Value(s[1..]) as int)) else None)
    else if s[0] == '+' then
      (if |s| > 1 && AllDigits(s[1..]) && Value(s[1..]) <= I64_MAX then Some(Value(s[1..])) else None)
    else if AllDigits(s) && Value(s) <= I64_MAX then Some(Value(s))
    else None
  }

  /** A printed number reads back exactly when it fits an i64. */
  lemma ParseSigned(n: int)
    ensures ParseI64(SignedDigits(n)) == if I64_MIN <= n <= I64_MAX then Some(n) else None
  {
    ValueOfDigits(if n < 0 then -n else n);
    hide Digits, Value;
    if n < 0 { assert SignedDigits(n)[1..] == Digits(-n); }
  }

  /** The number a printed signed number stands for: the left inverse of `SignedDigits`. */
  function SignedValue(s: string): int {
    if s != [] && s[0] == '-' then (if AllDigits(s[1..]) then 0 - (Value(s[1..]) as int) else 0)
    else if AllDigits(s) then Value(s)
    else 0
  }

  lemma SignedValueOfDigits(n: int)
    ensures SignedValue(SignedDigits(n)) == n
  {
    ValueOfDigits(if n < 0 then -n else n);
    hide Digits, Value;
    if n < 0 { assert SignedDigits(n)[1..] == Digits(-n); }
  }
}
