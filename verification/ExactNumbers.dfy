/** Which integers become precision data: the exact conversion to binary64 (bridge/_values.py).
    A binary64 value that is an integer is written as that integer. */
module ExactNumbers {
  import opened Wrappers

  const SIGNIFICANDS := 0x20_0000_0000_0000
  const EXPONENTS := 971

  function Pow2(e: nat): (r: int)
    ensures r >= 1
  {
    if e == 0 then 1 else 2 * Pow2(e - 1)
  }

  /** The place value of the last significand bit a magnitude keeps. */
  function Scale(a: nat): (e: nat) {
    if a < SIGNIFICANDS then 0 else 1 + Scale(a / 2)
  }

  /** Round to nearest, ties to even, as in section 4.3.1 of IEEE 754-2019. */
  function RoundMagnitude(a: nat): nat {
    var unit := Pow2(Scale(a));
    var q, r := a / unit, a % unit;
    if 2 * r > unit || (2 * r == unit && q % 2 == 1) then (q + 1) * unit else a - r
  }

  function Magnitude(n: int): nat {
    if n < 0 then -n else n
  }

  function RoundToDouble(n: int): int {
    var magnitude: int := RoundMagnitude(Magnitude(n));
    if n < 0 then -magnitude else magnitude
  }

  /** An integer is a binary64 value when it is a 53-bit significand times a power of two. */
  ghost predicate Representable(n: int) {
    exists m: nat, e: nat :: Represents(n, m, e)
  }

  predicate Represents(n: int, m: nat, e: nat) {
    m < SIGNIFICANDS && e <= EXPONENTS && Magnitude(n) == m * Pow2(e)
  }

  // -- the array conversion ---------------------------------------------------------

  predicate InDtype(v: int, signed: bool) {
    if signed then -Pow2(63) <= v < Pow2(63) else 0 <= v < Pow2(64)
  }

  function Converted(values: seq<int>): (r: seq<int>)
    ensures |r| == |values| && forall i :: 0 <= i < |r| ==> r[i] == RoundToDouble(values[i])
  {
    seq(|values|, i requires 0 <= i < |values| => RoundToDouble(values[i]))
  }

  /** The whole-array conversion: round, keep what fits the integer type, compare back. */
  method ExactFloat64(values: array<int>, signed: bool) returns (r: Option<array<int>>)
    requires forall i :: 0 <= i < values.Length ==> InDtype(values[i], signed)
    ensures r.Some? <==> forall i :: 0 <= i < values.Length ==> Representable(values[i])
    ensures r.Some? ==> fresh(r.value) && r.value[..] == values[..]
  {
    hide RoundToDouble;
    hide Representable;
    hide Pow2;
    var limit := if signed then Pow2(63) else Pow2(64);
    var lower := if signed then -limit else 0;
    var n := values.Length;
    var converted := new int[n];
    var representable := new bool[n];
    var back := new int[n];
    for i := 0 to n
      invariant forall j :: 0 <= j < i ==> converted[j] == RoundToDouble(values[j])
      invariant forall j :: 0 <= j < i ==> representable[j] == (lower <= converted[j] < limit)
      invariant forall j :: 0 <= j < i ==> back[j] == if representable[j] then converted[j] else 0
    {
      converted[i] := RoundToDouble(values[i]);
      representable[i] := lower <= converted[i] < limit;
      back[i] := 0;
      if representable[i] {
        back[i] := converted[i];
      }
    }
    var exact := true;
    for i := 0 to n
      invariant exact <==> forall j :: 0 <= j < i ==> representable[j] && back[j] == values[j]
    {
      exact := exact && representable[i] && back[i] == values[i];
    }
    forall j | 0 <= j < n
      ensures (representable[j] && back[j] == values[j]) <==> Representable(values[j])
      ensures Representable(values[j]) ==> converted[j] == values[j]
    {
      ArrayElement(values[j], signed);
    }
    if !exact {
      return None;
    }
    assert converted[..] == values[..];
    return Some(converted);
  }

  /** A scalar of any size: float() may overflow, and must come back unchanged. */
  function ScalarNumber(n: int): Option<int> {
    var number := RoundToDouble(n);
    if Magnitude(number) >= Pow2(1024) then None
    else if number != n then None
    else Some(number)
  }

  // -- rounding is exact when the dropped bits are zero ------------------------------

  /** Halving while the number is even reaches 53 bits. */
  predicate Fits(a: nat) {
    a < SIGNIFICANDS || (a % 2 == 0 && Fits(a / 2))
  }

  lemma HalfRemainder(a: nat, e: nat)
    ensures a % Pow2(e + 1) == 2 * ((a / 2) % Pow2(e)) + a % 2
  {
    var p := Pow2(e);
    var q, r, low := (a / 2) / p, (a / 2) % p, a % 2;
    assert a == 2 * p * q + (2 * r + low) by {
      assert a / 2 == p * q + r;
    }
    RemainderUnique(a, 2 * p, q, 2 * r + low);
  }

  lemma RemainderUnique(a: int, d: int, q: int, r: int)
    requires d > 0 && a == d * q + r && 0 <= r < d
    ensures a % d == r
  {
    var k := a / d - q;
    assert d * k == r - a % d;
    assert k == 0 by {
      if k >= 1 { Product(d, k - 1); }
      if k <= -1 { Product(d, -k - 1); }
    }
  }

  lemma Product(d: int, j: int)
    requires d >= 0 && j >= 0
    ensures d * j >= 0 && d * (j + 1) == d * j + d
  {
  }

  lemma {:induction false} DroppedBits(a: nat)
    ensures a % Pow2(Scale(a)) == 0 <==> Fits(a)
    decreases a
  {
    if a >= SIGNIFICANDS {
      DroppedBits(a / 2);
      HalfRemainder(a, Scale(a / 2));
    }
  }

  /** Rounding changes nothing exactly when the dropped bits are zero. */
  lemma RoundsToItself(a: nat)
    ensures RoundMagnitude(a) == a <==> Fits(a)
  {
    DroppedBits(a);
    hide Fits;
    hide Scale;
    var unit := Pow2(Scale(a));
    hide Pow2;
    var q, r := a / unit, a % unit;
    assert (q + 1) * unit == (a - r) + unit;
  }

  lemma {:induction false} ScaledFits(a: nat, m: nat, k: nat)
    requires a == m * Pow2(k) && m < SIGNIFICANDS
    ensures Fits(a) && a < Pow2(53 + k)
    decreases k
  {
    SmallPowers();
    if k > 0 {
      assert a == 2 * (m * Pow2(k - 1));
      ScaledFits(a / 2, m, k - 1);
    }
  }

  lemma {:induction false} FitsIsScaled(a: nat)
    requires Fits(a)
    ensures exists m: nat :: m < SIGNIFICANDS && a == m * Pow2(Scale(a))
    decreases a
  {
    if a < SIGNIFICANDS {
      assert a == a * Pow2(Scale(a));
    } else {
      FitsIsScaled(a / 2);
      var m: nat :| m < SIGNIFICANDS && a / 2 == m * Pow2(Scale(a / 2));
      assert Pow2(Scale(a)) == 2 * Pow2(Scale(a / 2));
      assert a == m * Pow2(Scale(a));
    }
  }

  lemma {:induction false} ScaleBounded(a: nat, t: nat)
    requires a < Pow2(53 + t)
    ensures Scale(a) <= t
    decreases t
  {
    SmallPowers();
    if a >= SIGNIFICANDS {
      ScaleBounded(a / 2, t - 1);
    }
  }

  lemma {:induction false} Pow2Grows(a: nat, b: nat)
    requires a <= b
    ensures Pow2(a) <= Pow2(b)
    decreases b
  {
    if a < b {
      Pow2Grows(a, b - 1);
    }
  }

  lemma Pow2Eight(e: nat)
    ensures Pow2(e + 8) == 256 * Pow2(e)
  {
    assert Pow2(e + 2) == 4 * Pow2(e);
    assert Pow2(e + 4) == 4 * Pow2(e + 2);
    assert Pow2(e + 6) == 4 * Pow2(e + 4);
  }

  lemma SmallPowers()
    ensures Pow2(53) == SIGNIFICANDS
    ensures Pow2(63) == 0x8000_0000_0000_0000 && Pow2(64) == 0x1_0000_0000_0000_0000
  {
    assert Pow2(1) == 2;
    assert Pow2(3) == 8;
    assert Pow2(5) == 32;
    Pow2Eight(5);
    Pow2Eight(13);
    Pow2Eight(21);
    Pow2Eight(29);
    Pow2Eight(37);
    Pow2Eight(45);
    Pow2Eight(53);
    assert Pow2(63) == 4 * Pow2(61);
  }

  // -- acceptance ---------------------------------------------------------------------

  /** A number survives rounding exactly when it is a binary64 value (below the overflow limit). */
  lemma RoundTripIsRepresentable(n: int)
    ensures RoundToDouble(n) == n && Magnitude(n) < Pow2(1024) <==> Representable(n)
  {
    var a := Magnitude(n);
    RoundsToItself(a);
    hide RoundMagnitude;
    hide Scale;
    hide Fits;
    hide Pow2;
    if Fits(a) && a < Pow2(1024) {
      ScaleBounded(a, EXPONENTS);
      FitsIsScaled(a);
      var m: nat :| m < SIGNIFICANDS && a == m * Pow2(Scale(a));
      assert Represents(n, m, Scale(a));
    }
    if Representable(n) {
      var m: nat, k: nat :| Represents(n, m, k);
      ScaledFits(a, m, k);
      Pow2Grows(53 + k, 1024);
    }
  }

  /** One element of a 64-bit integer array, at either signedness and at both ends of the range. */
  lemma ArrayElement(v: int, signed: bool)
    requires InDtype(v, signed)
    ensures var limit := if signed then Pow2(63) else Pow2(64);
            var lower := if signed then -limit else 0;
            var converted := RoundToDouble(v);
            (lower <= converted < limit && converted == v) <==> Representable(v)
    ensures Representable(v) ==> RoundToDouble(v) == v
  {
    RoundTripIsRepresentable(v);
    Pow2Grows(64, 1024);
    SmallPowers();
  }

  /** A scalar is accepted exactly when it is a binary64 value, and is stored unchanged. */
  lemma ScalarAccepted(n: int)
    ensures ScalarNumber(n) == if Representable(n) then Some(n) else None
  {
    RoundTripIsRepresentable(n);
  }

  /** The largest 64-bit integers round up to a power of two and are refused. */
  lemma EdgesRefused()
    ensures !Representable(0x7FFF_FFFF_FFFF_FFFF) && !Representable(0xFFFF_FFFF_FFFF_FFFF)
    ensures Representable(-0x8000_0000_0000_0000) && Representable(0x8000_0000_0000_0000)
  {
    SmallPowers();
    assert Represents(-0x8000_0000_0000_0000, 1, 63) && Represents(0x8000_0000_0000_0000, 1, 63);
    OddNeedsFewBits(0x7FFF_FFFF_FFFF_FFFF);
    OddNeedsFewBits(0xFFFF_FFFF_FFFF_FFFF);
  }

  lemma OddNeedsFewBits(n: nat)
    requires n % 2 == 1 && n >= SIGNIFICANDS
    ensures !Representable(n)
  {
    assert !Fits(n);
    RoundsToItself(n);
    RoundTripIsRepresentable(n);
  }
}
