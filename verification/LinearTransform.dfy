/**
 Linear transformations between 64-bit clocks (libs/utils/LinearTransform.cpp): a product of 96
 bits divided in 64-bit steps, signed results with overflow detection, and reduced fractions.
 Shifts and masks are written as divisions and remainders by powers of two; unsigned arithmetic
 is reduced modulo 2^64 wherever the code may wrap.
 */
module LinearTransform {

  const U32 := 0x1_0000_0000
  const U64 := 0x1_0000_0000_0000_0000
  const S63 := 0x8000_0000_0000_0000

  // ---------------------------------------------------------------- division

  lemma DivUnique(m: int, d: int, q: int, r: int)
    requires d > 0 && 0 <= r < d && m == q * d + r
    ensures m / d == q && m % d == r
  {
    var q', r' := m / d, m % d;
    assert m == q' * d + r';
    assert (q - q') * d == r' - r;
    assert q - q' >= 1 ==> (q - q') * d >= d;
    assert q' - q >= 1 ==> (q' - q) * d >= d;
  }

  /** Dafny's division by a positive number is the floor. */
  lemma FloorBounds(m: int, d: int)
    requires d > 0
    ensures m / d * d <= m < (m / d + 1) * d
  {
    assert m == m / d * d + m % d;
  }

  function CeilDiv(m: int, d: int): int
    requires d > 0
  {
    -((-m) / d)
  }

  lemma CeilIsFloorOrNext(m: int, d: int)
    requires d > 0
    ensures CeilDiv(m, d) == if m % d == 0 then m / d else m / d + 1
  {
    var q, r := m / d, m % d;
    assert m == q * d + r;
    if r == 0 {
      assert -m == (-q) * d + 0;
      DivUnique(-m, d, -q, 0);
    } else {
      assert -m == (-q - 1) * d + (d - r);
      DivUnique(-m, d, -q - 1, d - r);
    }
  }

  lemma DivMonotone(a: int, b: int, d: int)
    requires d > 0 && a <= b
    ensures a / d <= b / d
  {
    var q, p := a / d, b / d;
    FloorBounds(a, d);
    FloorBounds(b, d);
    assert (q - p - 1) * d < 0;
    assert q - p >= 1 ==> (q - p - 1) * d >= 0;
  }

  /** A quotient is below a bound exactly when the dividend is below the bound times d. */
  lemma QuotientBelow(m: int, d: int, n: int)
    requires d > 0
    ensures m / d < n <==> m < n * d
  {
    FloorBounds(m, d);
    var q := m / d;
    assert q + 1 <= n ==> (q + 1) * d <= n * d;
    assert n <= q ==> n * d <= q * d;
  }

  // ---------------------------------------------------------------- scale_u64_to_u64

  /** m / d rounded up or down. */
  function Rounded(m: int, d: nat, roundUp: bool): int
    requires d > 0
  {
    if roundUp then CeilDiv(m, d) else m / d
  }

  /** The exact scaled value. */
  function Scaled(val: nat, n: nat, d: nat, roundUp: bool): int
    requires d > 0
  {
    Rounded(val * n, d, roundUp)
  }

  lemma ProductBound(x: nat, y: nat, c: nat)
    requires x <= c && y <= c
    ensures x * y <= c * c
  {
    assert (c - x) * y >= 0 && c * (c - y) >= 0;
  }

  lemma Distribute(h: nat, l: nat, n: nat)
    ensures (h * U32 + l) * n == (h * n) * U32 + l * n
  {
  }

  /** M = val * N in two halves of 64 and 32 bits. */
  lemma Halves(val: nat, n: nat)
    requires val < U64 && n < U32
    ensures var hi, lo := val / U32 * n, val % U32 * n;
      && hi + lo / U32 < U64 && lo < U64
      && val * n == (hi + lo / U32) * U32 + lo % U32
  {
    var h, l := val / U32, val % U32;
    Distribute(h, l, n);
    ProductBound(h, n, U32 - 1);
    ProductBound(l, n, U32 - 1);
    HalvesOf(val * n, h * n, l * n);
  }

  lemma HalvesOf(m: nat, a: nat, b: nat)
    requires m == a * U32 + b && a <= (U32 - 1) * (U32 - 1) && b <= (U32 - 1) * (U32 - 1)
    ensures a + b / U32 < U64 && b < U64 && m == (a + b / U32) * U32 + b % U32
  {
  }

  /** Dividing the upper 64 bits, then the remainder with the lower 32, divides the whole. */
  lemma LongDivision(t: nat, low: nat, d: nat)
    requires d > 0 && low < U32 && t < d * U32
    ensures var q, r := t / d, t % d;
      && q < U32 && r * U32 + low < d * U32 && (r * U32 + low) / d < U32
      && (t * U32 + low) / d == q * U32 + (r * U32 + low) / d
      && (t * U32 + low) % d == (r * U32 + low) % d
  {
    var q, r := t / d, t % d;
    assert t == q * d + r;
    QuotientBelow(t, d, U32);
    var s := r * U32 + low;
    assert s < d * U32;
    QuotientBelow(s, d, U32);
    var p, e := s / d, s % d;
    assert s == p * d + e;
    assert t * U32 + low == (q * U32 + p) * d + e;
    DivUnique(t * U32 + low, d, q * U32 + p, e);
  }

  /** The test before the first division tells exactly whether the quotient fits. */
  lemma TopHalf(t: nat, low: nat, d: nat)
    requires d > 0 && low < U32
    ensures t / U32 >= d <==> t >= d * U32
    ensures t >= d * U32 <==> (t * U32 + low) / d >= U64
  {
    QuotientBelow(t, U32, d);
    QuotientBelow(t * U32 + low, d, U64);
    assert t < d * U32 ==> t * U32 + low < d * U32 * U32;
    assert t >= d * U32 ==> t * U32 >= d * U32 * U32;
    assert d * U32 * U32 == U64 * d;
  }

  /** The exact result in terms of the two divisions. */
  lemma RoundedByHalves(m: nat, d: nat, roundUp: bool, t: nat, low: nat)
    requires d > 0 && low < U32 && m == t * U32 + low
    ensures t / U32 >= d ==> Rounded(m, d, roundUp) >= U64
    ensures t / U32 < d ==>
      var p := t % d * U32 + low;
      var q := t / d * U32 + p / d;
      && 0 <= q < U64 && Rounded(m, d, roundUp) == if p % d != 0 && roundUp then q + 1 else q
  {
    TopHalf(t, low, d);
    CeilIsFloorOrNext(m, d);
    if t / U32 < d {
      LongDivision(t, low, d);
    }
  }

  /** The first half of scale_u64_to_u64: the product of 96 bits. */
  method Multiply(val: nat, n: nat) returns (t: nat, low: nat)
    requires val < U64 && n < U32
    ensures val * n == t * U32 + low && t < U64 && low < U32
  {
    Halves(val, n);
    var tmp2 := val / U32 * n;
    var tmp1 := val % U32 * n;
    return tmp2 + tmp1 / U32, tmp1 % U32;
  }

  /** ++ on a uint64_t. */
  method Increment(x: nat) returns (y: nat)
    requires x < U64
    ensures y == if x + 1 == U64 then 0 else x + 1
  {
    return (x + 1) % U64;
  }

  /** The second half: two divisions and the rounding. */
  method Divide(ghost m: nat, t: nat, low: nat, d: nat, roundUp: bool) returns (ok: bool, res: nat)
    requires t < U64 && low < U32 && 0 < d < U32 && m == t * U32 + low
    ensures ok <==> Rounded(m, d, roundUp) < U64
    ensures ok ==> res == Rounded(m, d, roundUp)
    ensures !ok ==> res == U64 - 1
  {
    RoundedByHalves(m, d, roundUp, t, low);
    if t / U32 >= d {
      return false, U64 - 1;
    }
    var p := t % d * U32 + low;
    res := t / d * U32 + p / d;
    if p % d != 0 && roundUp {
      res := Increment(res);
      if res == 0 {
        return false, U64 - 1;
      }
    }
    return true, res;
  }

  /** scale_u64_to_u64: the exact floor or ceiling of val * N / D, or failure exactly when that
      does not fit in 64 bits. */
  method ScaleU64(val: nat, n: nat, d: nat, roundUp: bool) returns (ok: bool, res: nat)
    requires val < U64 && n < U32 && 0 < d < U32
    ensures ok <==> Scaled(val, n, d, roundUp) < U64
    ensures ok ==> res == Scaled(val, n, d, roundUp)
    ensures !ok ==> res == U64 - 1
  {
    var t, low := Multiply(val, n);
    ok, res := Divide(val * n, t, low, d, roundUp);
  }

  // ---------------------------------------------------------------- linear_transform_s64_to_s64

  predicate InS64(x: int) {
    -S63 <= x < S63
  }

  predicate InS32(x: int) {
    -0x8000_0000 <= x < 0x8000_0000
  }

  function Abs(x: int): nat {
    if x < 0 then -x else x
  }

  /** The two's complement value of a 64-bit word. */
  function ToS64(u: nat): int {
    if u < S63 then u else u - U64
  }

  /** The fraction applied to val - basis1. */
  function Numer(n: int, d: nat, invert: bool): int {
    if invert then (if n < 0 then 0 - d else d) else n
  }

  function Denom(n: int, d: nat, invert: bool): nat {
    if invert then Abs(n) else d
  }

  /** The exact image: basis2 plus the floor of the scaled difference. */
  function Image(val: int, basis1: int, n: int, d: nat, invert: bool, basis2: int): int
    requires Denom(n, d, invert) > 0
  {
    basis2 + (val - basis1) * Numer(n, d, invert) / Denom(n, d, invert)
  }

  /** Whether the scaled difference is rounded towards minus infinity from below zero. */
  predicate Negative(x: int, n: int) {
    (x < 0) != (n < 0)
  }

  /** The magnitude the code scales: rounding it up is rounding the signed value down. */
  lemma SignedScale(x: int, n: int, d: nat, invert: bool)
    requires Denom(n, d, invert) > 0
    ensures var s := Scaled(Abs(x), Abs(Numer(n, d, invert)), Denom(n, d, invert), Negative(x, n));
      s >= 0 && x * Numer(n, d, invert) / Denom(n, d, invert) == if Negative(x, n) then -s else s
  {
    var k, e := Numer(n, d, invert), Denom(n, d, invert);
    var m := Abs(x) * Abs(k);
    assert m >= 0;
    SignOfProduct(x, k, n, Negative(x, n));
    FloorBounds(m, e);
    FloorBounds(-m, e);
    CeilIsFloorOrNext(m, e);
    QuotientBelow(m, e, 0);
  }

  lemma SignOfProduct(x: int, k: int, n: int, negative: bool)
    requires negative == ((x < 0) != (n < 0)) && (k == 0 || ((k < 0) == (n < 0)))
    ensures x * k == if negative then -(Abs(x) * Abs(k)) else Abs(x) * Abs(k)
  {
    if k == 0 {
      assert x * k == 0 && Abs(x) * Abs(k) == 0;
    } else if x < 0 {
      assert Abs(x) * Abs(k) == if k < 0 then x * k else -(x * k);
    } else {
      assert Abs(x) * Abs(k) == if k < 0 then -(x * k) else x * k;
    }
  }

  /** ABS on an int64_t: the least value is its own negation. */
  function AbsS64(x: int): int {
    if x == -S63 then -S63 else Abs(x)
  }

  /** When the code reports success: the exact image fits, unless the magnitude needs all 64
      bits and the image or the basis is the least value. */
  predicate Succeeds(scaled: int, image: int, basis2: int) {
    InS64(image) && !(scaled >= S63 && (image == -S63 || basis2 == -S63))
  }

  /** The last part of linear_transform_s64_to_s64: adds the basis with overflow detection. */
  method AddBasis(scaled: nat, isNeg: bool, basis2: int) returns (ok: bool, out: int)
    requires scaled < U64 && InS64(basis2)
    ensures var image := basis2 + if isNeg then 0 - scaled else scaled;
      (ok <==> Succeeds(scaled, image, basis2)) && (ok ==> out == image)
  {
    out := 0;
    if scaled >= S63 {
      if isNeg && basis2 < 0 {
        return false, 0;
      }
      if !isNeg && basis2 >= 0 {
        return false, 0;
      }
      if AbsS64(basis2) <= scaled % S63 {
        return false, 0;
      }
      var word := ((if isNeg then U64 - scaled else scaled) + basis2) % U64;
      return true, ToS64(word);
    } else {
      var word := if isNeg then (U64 - scaled) % U64 else scaled;
      var res := (word + basis2) % U64;
      if (word >= S63) == (basis2 < 0) && (word >= S63) != (res >= S63) {
        return false, 0;
      }
      return true, ToS64(res);
    }
  }

  /** The sign and the magnitude of the difference; the subtraction is one of unsigned words. */
  method Difference(val: int, basis: int) returns (isNeg: bool, absVal: nat)
    requires InS64(val) && InS64(basis)
    ensures isNeg == (val < basis) && absVal == Abs(val - basis) < U64
  {
    if val < basis {
      return true, (basis - val) % U64;
    }
    return false, (val - basis) % U64;
  }

  /** linear_transform_s64_to_s64: on success the exact image; success exactly as Succeeds says. */
  method TransformS64(val: int, basis1: int, n: int, d: nat, invert: bool, basis2: int) returns (ok: bool, out: int)
    requires InS64(val) && InS64(basis1) && InS64(basis2) && InS32(n) && d < U32 && Denom(n, d, invert) > 0
    ensures var scaled := Scaled(Abs(val - basis1), Abs(Numer(n, d, invert)), Denom(n, d, invert),
      Negative(val - basis1, n));
      ok <==> Succeeds(scaled, Image(val, basis1, n, d, invert, basis2), basis2)
    ensures ok ==> out == Image(val, basis1, n, d, invert, basis2)
  {
    ghost var image, exact := Image(val, basis1, n, d, invert, basis2),
      Scaled(Abs(val - basis1), Abs(Numer(n, d, invert)), Denom(n, d, invert), Negative(val - basis1, n));
    assert exact >= 0 && image == basis2 + if Negative(val - basis1, n) then -exact else exact by {
      SignedScale(val - basis1, n, d, invert);
    }
    var isNeg, absVal := Difference(val, basis1);
    if n < 0 {
      isNeg := !isNeg;
    }
    assert isNeg == Negative(val - basis1, n);
    var fits, scaled := ScaleU64(absVal, if invert then d else Abs(n), if invert then Abs(n) else d, isNeg);
    if !fits {
      return false, 0;
    }
    ok, out := AddBasis(scaled, isNeg, basis2);
  }

  // ---------------------------------------------------------------- LinearTransform

  /** The record's fields: two bases and the ratio a_to_b_numer / a_to_b_denom. */
  datatype Transform = Transform(aZero: int, bZero: int, numer: int, denom: nat)

  predicate Fields(t: Transform) {
    InS64(t.aZero) && InS64(t.bZero) && InS32(t.numer) && t.denom < U32
  }

  /** The exact images in both directions. */
  function ToB(t: Transform, a: int): int
    requires t.denom != 0
  {
    t.bZero + (a - t.aZero) * t.numer / t.denom
  }

  function ToA(t: Transform, b: int): int
    requires t.numer != 0
  {
    t.aZero + (b - t.bZero) * (if t.numer < 0 then 0 - t.denom else t.denom) / Abs(t.numer)
  }

  /** Whether an image comes out: it is in range, and not at one of the two rejected edges. */
  predicate Reached(image: int, basis: int) {
    Succeeds(Abs(image - basis), image, basis)
  }

  method DoForward(t: Transform, a: int) returns (ok: bool, b: int)
    requires Fields(t) && InS64(a)
    ensures ok <==> t.denom != 0 && Reached(ToB(t, a), t.bZero)
    ensures ok ==> b == ToB(t, a) && InS64(b)
  {
    if t.denom == 0 {
      return false, 0;
    }
    SignedScale(a - t.aZero, t.numer, t.denom, false);
    ok, b := TransformS64(a, t.aZero, t.numer, t.denom, false, t.bZero);
  }

  method DoReverse(t: Transform, b: int) returns (ok: bool, a: int)
    requires Fields(t) && InS64(b)
    ensures ok <==> t.numer != 0 && Reached(ToA(t, b), t.aZero)
    ensures ok ==> a == ToA(t, b) && InS64(a)
  {
    if t.numer == 0 {
      return false, 0;
    }
    SignedScale(b - t.bZero, t.numer, t.denom, true);
    ok, a := TransformS64(b, t.bZero, t.numer, t.denom, true, t.aZero);
  }

  /** Forward and back loses at most the width of one step. */
  lemma RoundTrip(t: Transform, a: int)
    requires t.numer > 0 && t.denom > 0
    ensures ToA(t, ToB(t, a)) <= a
    ensures a - CeilDiv(t.denom - 1, t.numer) <= ToA(t, ToB(t, a))
    ensures a - CeilDiv(t.denom, t.numer) <= ToA(t, ToB(t, a))
  {
    var x, n, d := a - t.aZero, t.numer, t.denom;
    var y := x * n / d;
    FloorBounds(x * n, d);
    assert x * n - (d - 1) <= y * d <= x * n;
    DivMonotone(y * d, x * n, n);
    DivUnique(x * n, n, x, 0);
    DivMonotone(x * n - (d - 1), y * d, n);
    ShiftedQuotient(x, n, d - 1);
    DivMonotone(-d, -(d - 1), n);
  }

  /** One call forward and one back: if both succeed, at most one step is lost. */
  method ForwardAndBack(t: Transform, a: int) returns (ok: bool, back: int)
    requires Fields(t) && InS64(a)
    ensures ok <==> t.denom != 0 && t.numer != 0 && Reached(ToB(t, a), t.bZero) && Reached(ToA(t, ToB(t, a)), t.aZero)
    ensures ok && t.numer > 0 ==> a - CeilDiv(t.denom - 1, t.numer) <= back <= a
  {
    var b;
    ok, b := DoForward(t, a);
    if !ok {
      return false, 0;
    }
    ok, back := DoReverse(t, b);
    if t.numer > 0 {
      RoundTrip(t, a);
    }
  }

  lemma ShiftedQuotient(x: int, n: int, k: int)
    requires n > 0
    ensures (x * n - k) / n == x - CeilDiv(k, n)
  {
    var q, r := (-k) / n, (-k) % n;
    assert -k == q * n + r;
    assert x * n - k == (x + q) * n + r;
    DivUnique(x * n - k, n, x + q, r);
  }

  /** Two results in range that are rejected, both with a magnitude of 2^63: one is the least value
      itself, the other starts from it. */
  lemma EdgesAreRejected()
    ensures Image(-S63, 0, 1, 1, false, 0) == -S63 && InS64(-S63) && !Reached(-S63, 0)
    ensures Image(S63 - 1, -1, 1, 1, false, -S63) == 0 && InS64(0) && !Reached(0, -S63)
  {
  }

  // ---------------------------------------------------------------- reduce

  predicate Divides(k: nat, a: nat) {
    k > 0 && a % k == 0
  }

  lemma MultipleIsDivisible(k: nat, q: nat)
    requires k > 0
    ensures Divides(k, k * q)
  {
    DivUnique(k * q, k, q, 0);
  }

  lemma DivisibleIsMultiple(k: nat, a: nat)
    requires Divides(k, a)
    ensures a == k * (a / k)
  {
  }

  /** One step of Euclid's method keeps the common divisors. */
  lemma EuclidStep(a: nat, b: nat, k: nat)
    requires b > 0
    ensures Divides(k, a) && Divides(k, b) <==> Divides(k, b) && Divides(k, a % b)
  {
    var q, r := a / b, a % b;
    assert a == q * b + r;
    if Divides(k, a) && Divides(k, b) {
      DivisibleIsMultiple(k, a);
      DivisibleIsMultiple(k, b);
      assert r == k * (a / k) - q * (k * (b / k));
      assert r == k * (a / k - q * (b / k));
      DivUnique(r, k, a / k - q * (b / k), 0);
    }
    if Divides(k, b) && Divides(k, r) {
      DivisibleIsMultiple(k, b);
      DivisibleIsMultiple(k, r);
      assert a == q * (k * (b / k)) + k * (r / k);
      assert a == k * (q * (b / k) + r / k);
      DivUnique(a, k, q * (b / k) + r / k, 0);
    }
  }

  /** g is the greatest common divisor: the common divisors are the divisors of g. */
  ghost predicate IsGcd(g: nat, a: nat, b: nat) {
    g > 0 && forall k: nat {:trigger Divides(k, g)} :: Divides(k, g) <==> Divides(k, a) && Divides(k, b)
  }

  ghost predicate SameDivisors(a: nat, b: nat, n: nat, d: nat) {
    forall k: nat {:trigger Divides(k, b)} :: Divides(k, a) && Divides(k, b) <==> Divides(k, n) && Divides(k, d)
  }

  ghost predicate LowestTerms(n: nat, d: nat) {
    forall k: nat {:trigger Divides(k, n)} :: Divides(k, n) && Divides(k, d) ==> k == 1
  }

  /** LinearTransform::reduce<T>: N and D divided by their greatest common divisor. */
  method Reduce(n: nat, d: nat) returns (n': nat, d': nat)
    ensures d == 0 ==> n' == n && d' == d
    ensures d > 0 && n == 0 ==> n' == 0 && d' == 1
    ensures d > 0 ==> d' > 0 && n * d' == n' * d && n' <= n && d' <= d
    ensures d > 0 ==> LowestTerms(n', d')
  {
    if d == 0 {
      return n, d;
    }
    var a: nat, b: nat := n, d;
    if a == 0 {
      OnlyOne();
      return 0, 1;
    }
    if a < b {
      a, b := b, a;
    }
    while true
      invariant a >= b > 0 && SameDivisors(a, b, n, d)
      decreases b
    {
      var remainder := a % b;
      if remainder == 0 {
        GcdFound(a, b, n, d);
        Reduced(b, n, d);
        QuotientAtMost(n, b);
        QuotientAtMost(d, b);
        return n / b, d / b;
      }
      forall k: nat ensures Divides(k, b) && Divides(k, remainder) <==> Divides(k, n) && Divides(k, d) {
        EuclidStep(a, b, k);
      }
      a := b;
      b := remainder;
    }
  }

  /** The 32-bit value of a word: what a cast of `v` to int32_t gives. */
  function ToSigned32(v: int): (r: int)
    ensures -0x8000_0000 <= r < 0x8000_0000
  {
    (v + 0x8000_0000) % 0x1_0000_0000 - 0x8000_0000
  }

  /** The overload for a signed numerator.  Negation wraps, so INT32_MIN is its own opposite;
      read as unsigned it is 2^31, and the result is exact all the same. */
  method ReduceSigned(n: int, d: nat) returns (n': int, d': nat)
    requires -0x8000_0000 <= n < 0x8000_0000
    ensures d == 0 ==> n' == n && d' == d
    ensures d > 0 ==> -0x8000_0000 <= n' < 0x8000_0000 && d' > 0 && n * d' == n' * d
    ensures d > 0 ==> LowestTerms(if n' < 0 then -n' else n', d')
  {
    if d == 0 {
      return n, d;
    }
    if n < 0 {
      var negated := ToSigned32(-n);
      NegatedOnce(n);
      var m, q := Reduce(negated % 0x1_0000_0000, d);
      n', d' := ToSigned32(-ToSigned32(m)), q;
      NegatedTwice(m);
      OppositeRatio(n, d, m, q);
    } else {
      n', d' := Reduce(n, d);
    }
  }

  lemma NegatedOnce(n: int)
    requires -0x8000_0000 <= n < 0
    ensures ToSigned32(-n) % 0x1_0000_0000 == -n
  {
  }

  lemma NegatedTwice(m: int)
    requires 0 <= m <= 0x8000_0000
    ensures ToSigned32(-ToSigned32(m)) == -m
  {
  }

  lemma OppositeRatio(n: int, d: int, m: int, q: int)
    requires (-n) * q == m * d
    ensures n * q == (-m) * d
  {
  }

  lemma QuotientAtMost(x: nat, b: nat)
    requires b > 0
    ensures x / b <= x
  {
    var q := x / b;
    assert x == b * q + x % b;
    assert b >= 1 && q >= 0 ==> b * q >= q;
  }

  lemma OnlyOne()
    ensures forall k: nat {:trigger Divides(k, 1)} :: Divides(k, 1) ==> k == 1
  {
  }

  lemma GcdFound(a: nat, b: nat, n: nat, d: nat)
    requires b > 0 && a % b == 0 && SameDivisors(a, b, n, d)
    ensures IsGcd(b, n, d)
  {
    forall k: nat ensures Divides(k, b) <==> Divides(k, n) && Divides(k, d) {
      if Divides(k, b) {
        DivisibleIsMultiple(b, a);
        DivisibleIsMultiple(k, b);
        assert a == k * (b / k) * (a / b);
        assert a == k * ((b / k) * (a / b));
        DivUnique(a, k, (b / k) * (a / b), 0);
      }
      assert Divides(k, a) && Divides(k, b) <==> Divides(k, n) && Divides(k, d);
    }
  }

  lemma Reduced(g: nat, n: nat, d: nat)
    requires IsGcd(g, n, d) && d > 0
    ensures d / g > 0 && n * (d / g) == (n / g) * d
    ensures forall k: nat {:trigger Divides(k, n / g)} :: Divides(k, n / g) && Divides(k, d / g) ==> k == 1
  {
    MultipleIsDivisible(g, 1);
    assert Divides(g, g);
    DivisibleIsMultiple(g, n);
    DivisibleIsMultiple(g, d);
    assert n * (d / g) == g * (n / g) * (d / g) == (n / g) * d;
    forall k: nat ensures Divides(k, n / g) && Divides(k, d / g) ==> k == 1 {
      if Divides(k, n / g) && Divides(k, d / g) {
        DivisibleIsMultiple(k, n / g);
        DivisibleIsMultiple(k, d / g);
        assert n == (g * k) * (n / g / k) && d == (g * k) * (d / g / k);
        DivUnique(n, g * k, n / g / k, 0);
        DivUnique(d, g * k, d / g / k, 0);
        assert Divides(g * k, g);
        DivisibleIsMultiple(g * k, g);
        LargeFactor(g, k);
      }
    }
  }

  lemma LargeFactor(g: nat, k: nat)
    requires g > 0 && k > 0 && g == g * k * (g / (g * k))
    ensures k == 1
  {
    var q := g / (g * k);
    assert k >= 2 && q >= 1 ==> g * k * q >= g * k >= 2 * g;
  }
}
