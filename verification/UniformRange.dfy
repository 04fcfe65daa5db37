/** Widening-multiply rejection sampling over 64-bit draws (generator.rs in both seeders). */
module UniformRange {
  import opened Decimal

  /** The number of 64-bit draws, 2^64. */
  const DRAWS: nat := U64_MAX + 1

  const HALF: nat := 0x8000_0000_0000_0000

  function Pow2(n: nat): (p: nat)
    ensures p >= 1
  {
    if n == 0 then 1 else 2 * Pow2(n - 1)
  }

  /** How far x, already shifted by n, can still be shifted before its top bit is set. */
  function Shifts(x: nat, n: nat): (k: nat)
    requires 0 < x && x * Pow2(n) <= U64_MAX
    ensures HALF <= x * Pow2(k) <= U64_MAX
    decreases DRAWS - x * Pow2(n)
  {
    if x * Pow2(n) >= HALF then n
    else
      assert x * Pow2(n + 1) == 2 * (x * Pow2(n)) && x * Pow2(n) > 0 by { Doubled(x, n); }
      Shifts(x, n + 1)
  }

  lemma Doubled(x: nat, n: nat)
    requires x > 0
    ensures x * Pow2(n + 1) == 2 * (x * Pow2(n)) && x * Pow2(n) > 0
  {
    var p := Pow2(n);
    assert Pow2(n + 1) == 2 * p;
    assert x * (2 * p) == 2 * (x * p);
  }

  /** `u64::leading_zeros` of a nonzero value: the shift that brings its top bit to the front. */
  function LeadingZeros(x: nat): (n: nat)
    requires 0 < x <= U64_MAX
    ensures HALF <= x * Pow2(n) <= U64_MAX
  {
    assert Pow2(0) == 1;
    Shifts(x, 0)
  }

  /** `(range << range.leading_zeros()).wrapping_sub(1)`: the shift keeps the low 64 bits. */
  function Zone(range: nat): (z: nat)
    requires 0 < range <= U64_MAX
    ensures z <= U64_MAX
  {
    (range * Pow2(LeadingZeros(range)) % DRAWS + DRAWS - 1) % DRAWS
  }

  /** Neither the shift nor the subtraction loses anything, and at least half of the low halves are accepted. */
  lemma ZoneExactly(range: nat)
    requires 0 < range <= U64_MAX
    ensures Zone(range) + 1 == range * Pow2(LeadingZeros(range))
    ensures HALF <= Zone(range) + 1
  {
    hide LeadingZeros;
    var w := range * Pow2(LeadingZeros(range));
    assert HALF <= w <= U64_MAX;
    assert w % DRAWS == w;
    assert (w + DRAWS - 1) % DRAWS == w - 1;
  }

  /** The high and low halves of the 128-bit product. */
  function High(v: nat, range: nat): nat { v * range / DRAWS }

  function Low(v: nat, range: nat): nat { v * range % DRAWS }

  predicate Accepted(v: nat, range: nat)
    requires 0 < range <= U64_MAX
  {
    Low(v, range) <= Zone(range)
  }

  /** `u128::from(v) * u128::from(range)` fits, and `low + hi` stays below `high`. */
  lemma NothingOverflows(v: nat, low: nat, high: nat)
    requires v <= U64_MAX && low < high <= U64_MAX
    ensures v * (high - low) < DRAWS * DRAWS
    ensures low <= low + High(v, high - low) < high
  {
    var range := high - low;
    assert v * range <= U64_MAX * range;
    Quotient(v * range, DRAWS, range);
  }

  lemma Quotient(x: nat, m: nat, q: nat)
    requires m > 0 && x < m * q
    ensures x / m < q
  {
    var d := x / m;
    assert x == m * d + x % m;
    assert d >= q ==> m * d >= m * q;
  }

  // -------------------------------------------------------------- uniformity --

  /** The accepted draws that give `low + h`. */
  ghost function DrawsFor(range: nat, h: nat): set<nat>
    requires 0 < range <= U64_MAX
  {
    set v | 0 <= v < DRAWS && Accepted(v, range) && High(v, range) == h
  }

  ghost function AcceptedDraws(range: nat): set<nat>
    requires 0 < range <= U64_MAX
  {
    set v | 0 <= v < DRAWS && Accepted(v, range)
  }

  /** The least v with v * range >= x. */
  function Least(x: nat, range: nat): nat
    requires range > 0
  {
    (x + range - 1) / range
  }

  lemma LeastIsLeast(x: nat, range: nat, v: int)
    requires range > 0
    ensures v * range >= x <==> v >= Least(x, range)
  {
    var a := Least(x, range);
    assert x + range - 1 == range * a + (x + range - 1) % range;
    if v >= a { assert v * range >= a * range; } else { assert v * range <= (a - 1) * range; }
  }

  /** The k integers from a on. */
  ghost function Window(a: nat, k: nat): (w: set<nat>)
    ensures |w| == k && forall v :: v in w <==> a <= v < a + k
  {
    if k == 0 then {} else Window(a, k - 1) + {a + k - 1}
  }

  /** A draw is accepted for h exactly when its product lies in a window of length range * 2^lz starting at h * 2^64. */
  lemma WindowExactly(range: nat, h: nat, v: nat)
    requires 0 < range <= U64_MAX
    ensures Accepted(v, range) && High(v, range) == h
      <==> h * DRAWS <= v * range < h * DRAWS + range * Pow2(LeadingZeros(range))
  {
    hide LeadingZeros, Zone;
    ZoneExactly(range);
    var p := v * range;
    assert p == DRAWS * High(v, range) + Low(v, range);
    var w := range * Pow2(LeadingZeros(range));
    if h * DRAWS <= p < h * DRAWS + w {
      assert p < (h + 1) * DRAWS;
      assert High(v, range) == h;
    }
  }

  lemma DrawInWindow(range: nat, h: nat, k: nat, v: nat)
    requires range > 0
    ensures h * DRAWS <= v * range < h * DRAWS + range * k <==> Least(h * DRAWS, range) <= v < Least(h * DRAWS, range) + k
  {
    LeastIsLeast(h * DRAWS, range, v);
    LeastIsLeast(h * DRAWS, range, v - k);
    assert (v - k) * range == v * range - range * k;
  }

  /** The draws for h are the k consecutive integers from the first one on. */
  lemma DrawExactly(range: nat, h: nat, v: nat)
    requires 0 < range <= U64_MAX && h < range
    ensures var a := Least(h * DRAWS, range);
      v < DRAWS && Accepted(v, range) && High(v, range) == h <==> a <= v < a + Pow2(LeadingZeros(range))
  {
    hide LeadingZeros, Accepted, High, Least, Pow2;
    WindowExactly(range, h, v);
    DrawInWindow(range, h, Pow2(LeadingZeros(range)), v);
    if h * DRAWS <= v * range < h * DRAWS + range * Pow2(LeadingZeros(range)) { WindowBelow(range, h, v); }
  }

  /** Exactly uniform: every result in [low, high) has 2^leading_zeros(range) accepted draws. */
  lemma ExactlyUniform(range: nat, h: nat)
    requires 0 < range <= U64_MAX && h < range
    ensures |DrawsFor(range, h)| == Pow2(LeadingZeros(range))
  {
    hide LeadingZeros, Accepted, High, Least, Pow2, Window;
    var w := Window(Least(h * DRAWS, range), Pow2(LeadingZeros(range)));
    forall v: nat ensures v in DrawsFor(range, h) <==> v in w {
      DrawExactly(range, h, v);
    }
    assert DrawsFor(range, h) == w;
  }

  lemma WindowBelow(range: nat, h: nat, v: nat)
    requires 0 < range <= U64_MAX && h < range
    requires v * range < h * DRAWS + range * Pow2(LeadingZeros(range))
    ensures v < DRAWS
  {
    hide LeadingZeros;
    assert (h + 1) * DRAWS <= range * DRAWS;
    assert v >= DRAWS ==> v * range >= DRAWS * range;
  }

  ghost function DrawsBelow(range: nat, h: nat): set<nat>
    requires 0 < range <= U64_MAX
  {
    set v | 0 <= v < DRAWS && Accepted(v, range) && High(v, range) < h
  }

  lemma {:induction false} CountBelow(range: nat, h: nat)
    requires 0 < range <= U64_MAX && h <= range
    ensures |DrawsBelow(range, h)| == h * Pow2(LeadingZeros(range))
  {
    hide LeadingZeros, Accepted, High;
    if h > 0 {
      CountBelow(range, h - 1);
      ExactlyUniform(range, h - 1);
      assert DrawsBelow(range, h) == DrawsBelow(range, h - 1) + DrawsFor(range, h - 1);
      assert DrawsBelow(range, h - 1) !! DrawsFor(range, h - 1);
      Distribute(h, Pow2(LeadingZeros(range)));
    } else {
      assert DrawsBelow(range, 0) == {};
    }
  }

  lemma Distribute(h: nat, k: nat)
    requires h > 0
    ensures (h - 1) * k + k == h * k
  {
  }

  /** At least half of the 2^64 draws are accepted. */
  lemma HalfAccepted(range: nat)
    requires 0 < range <= U64_MAX
    ensures |AcceptedDraws(range)| == range * Pow2(LeadingZeros(range)) && |AcceptedDraws(range)| >= HALF
  {
    hide LeadingZeros, Accepted;
    forall v: nat | v < DRAWS ensures High(v, range) < range {
      NothingOverflows(v, 0, range);
    }
    assert AcceptedDraws(range) == DrawsBelow(range, range);
    CountBelow(range, range);
  }

  // -------------------------------------------------------------- the sampler --

  /** A seeded generator: the draws it has still to give. */
  class Rng {
    var draws: seq<nat>

    constructor (stream: seq<nat>)
      ensures draws == stream
    {
      draws := stream;
    }

    method NextU64() returns (v: Option<nat>)
      modifies this
      ensures old(draws) == [] ==> v.None? && draws == []
      ensures old(draws) != [] ==> v == Some(old(draws)[0]) && draws == old(draws)[1..]
    {
      if draws == [] { return None; }
      v := Some(draws[0]);
      draws := draws[1..];
    }
  }

  /** The index of the first accepted draw. */
  function FirstAccepted(draws: seq<nat>, range: nat): (i: nat)
    requires 0 < range <= U64_MAX
    ensures i <= |draws| && (i < |draws| ==> Accepted(draws[i], range))
    ensures forall j | 0 <= j < i :: !Accepted(draws[j], range)
  {
    if draws == [] || Accepted(draws[0], range) then 0 else 1 + FirstAccepted(draws[1..], range)
  }

  lemma FirstStep(draws: seq<nat>, range: nat)
    requires 0 < range <= U64_MAX && draws != []
    ensures FirstAccepted(draws, range) == if Accepted(draws[0], range) then 0 else 1 + FirstAccepted(draws[1..], range)
  {
  }

  /** `uniform_range`: the result of the first accepted draw, with the stream left just after it. */
  method Uniform(rng: Rng, low: nat, high: nat) returns (r: Option<nat>)
    requires low < high <= U64_MAX && forall v | v in rng.draws :: v <= U64_MAX
    modifies rng
    ensures var i := FirstAccepted(old(rng.draws), high - low);
      if i < |old(rng.draws)|
      then r == Some(low + High(old(rng.draws)[i], high - low)) && low <= r.value < high && rng.draws == old(rng.draws)[i + 1..]
      else r == None && rng.draws == []
  {
    hide LeadingZeros, Zone, FirstAccepted;
    var range := high - low;
    var zone := (range * Pow2(LeadingZeros(range)) % DRAWS + DRAWS - 1) % DRAWS;
    assert zone == Zone(range) by { ZoneExactly(range); }
    ghost var used := 0;
    while true
      invariant used <= |old(rng.draws)| && rng.draws == old(rng.draws)[used..]
      invariant FirstAccepted(old(rng.draws), range) == used + FirstAccepted(rng.draws, range)
      decreases |rng.draws|
    {
      ghost var rest := rng.draws;
      var v := rng.NextU64();
      if v.None? { return None; }
      FirstStep(rest, range);
      assert rest[0] == old(rng.draws)[used] && rest[1..] == old(rng.draws)[used + 1..];
      assert v.value in old(rng.draws);
      NothingOverflows(v.value, low, high);
      var full := v.value * range;
      var hi, lo := full / DRAWS, full % DRAWS;
      used := used + 1;
      assert lo <= zone <==> Accepted(v.value, range);
      if lo <= zone { return Some(low + hi); }
    }
  }
}
