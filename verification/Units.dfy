/** The duration and size notations of a Hermesfile and their canonical
    spellings, from the characters up. Sizes are computed in decimal arithmetic
    with 28 significant digits, as the source computes them. */
module Units {
  import opened Wrappers
  import opened Text

  // ----- Splitting a numeral from its unit -----------------------------------------

  /** Length of the longest prefix of digits. */
  function DigitRun(s: string): (n: nat)
    ensures n <= |s| && AllDigits(s[..n])
    ensures n < |s| ==> !IsDigit(s[n])
  {
    if s == [] || !IsDigit(s[0]) then 0
    else
      var n := 1 + DigitRun(s[1..]);
      assert s[..n] == [s[0]] + s[1..][..n - 1];
      n
  }

  lemma {:induction false} DigitRunIs(digits: string, rest: string)
    requires AllDigits(digits) && (rest != [] ==> !IsDigit(rest[0]))
    ensures DigitRun(digits + rest) == |digits|
  {
    if digits == [] {
      assert digits + rest == rest;
    } else {
      assert (digits + rest)[1..] == digits[1..] + rest;
      DigitRunIs(digits[1..], rest);
    }
  }

  // ----- Durations -------------------------------------------------------------------

  const MAX_DURATION: nat := 365 * 24 * 3_600_000

  function DurationUnit(unit: string): (m: nat) {
    if unit == "ms" then 1 else if unit == "s" then 1000 else if unit == "m" then 60_000
    else if unit == "h" then 3_600_000 else 0
  }

  /** Milliseconds, or nothing where the source raises. */
  function ParseDuration(s: string): Option<nat> {
    var n := DigitRun(s);
    if n == 0 || s[0] == '0' || DurationUnit(s[n..]) == 0 then None
    else
      var milliseconds := NatOf(s[..n]) * DurationUnit(s[n..]);
      if milliseconds > MAX_DURATION then None else Some(milliseconds)
  }

  function DurationText(ms: nat): string {
    if ms % 3_600_000 == 0 then DigitsOf(ms / 3_600_000) + "h"
    else if ms % 60_000 == 0 then DigitsOf(ms / 60_000) + "m"
    else if ms % 1000 == 0 then DigitsOf(ms / 1000) + "s"
    else DigitsOf(ms) + "ms"
  }

  function CanonicalDuration(s: string): Option<string> {
    if ParseDuration(s).None? then None else Some(DurationText(ParseDuration(s).value))
  }

  lemma ParseOfNumeral(n: nat, unit: string)
    requires n > 0 && DurationUnit(unit) > 0
    ensures ParseDuration(DigitsOf(n) + unit)
         == if n * DurationUnit(unit) > MAX_DURATION then None else Some(n * DurationUnit(unit))
  {
    var digits := DigitsOf(n);
    var s := digits + unit;
    assert !IsDigit(unit[0]);
    DigitRunIs(digits, unit);
    assert s[..|digits|] == digits && s[|digits|..] == unit && s[0] == digits[0];
  }

  lemma ParsedDurationIsPositive(s: string)
    requires ParseDuration(s).Some?
    ensures 0 < ParseDuration(s).value <= MAX_DURATION
  {
    var n := DigitRun(s);
    LeadingDigit(s[..n]);
    Product(NatOf(s[..n]), DurationUnit(s[n..]));
  }

  lemma Product(a: nat, b: nat)
    requires a > 0 && b > 0
    ensures a * b > 0 && a * b >= a
  {
  }

  lemma ExactMultiple(total: nat, unit: nat)
    requires total > 0 && unit > 0 && total % unit == 0
    ensures total / unit > 0 && (total / unit) * unit == total
  {
  }

  lemma ParseOfExactDuration(ms: nat, unit: string)
    requires 0 < ms <= MAX_DURATION && DurationUnit(unit) > 0 && ms % DurationUnit(unit) == 0
    ensures ParseDuration(DigitsOf(ms / DurationUnit(unit)) + unit) == Some(ms)
  {
    ExactMultiple(ms, DurationUnit(unit));
    ParseOfNumeral(ms / DurationUnit(unit), unit);
  }

  /** Every duration in range has a spelling that parses back to it. */
  lemma ParseOfDurationText(ms: nat)
    requires 0 < ms <= MAX_DURATION
    ensures ParseDuration(DurationText(ms)) == Some(ms)
  {
    if ms % 3_600_000 == 0 { ParseOfExactDuration(ms, "h"); }
    else if ms % 60_000 == 0 { ParseOfExactDuration(ms, "m"); }
    else if ms % 1000 == 0 { ParseOfExactDuration(ms, "s"); }
    else { ParseOfNumeral(ms, "ms"); }
  }

  /** The canonical spelling exists exactly for accepted durations, keeps the
      milliseconds and is its own canonical spelling. */
  lemma DurationNormalForm(s: string)
    ensures CanonicalDuration(s).Some? <==> ParseDuration(s).Some?
    ensures CanonicalDuration(s).Some? ==>
              var c := CanonicalDuration(s).value;
              ParseDuration(c) == ParseDuration(s) && CanonicalDuration(c) == Some(c)
  {
    if ParseDuration(s).Some? {
      ParsedDurationIsPositive(s);
      ParseOfDurationText(ParseDuration(s).value);
    }
  }

  /** Two durations have one canonical spelling exactly when they are equal. */
  lemma DurationsAgree(s: string, t: string)
    requires ParseDuration(s).Some? && ParseDuration(t).Some?
    ensures CanonicalDuration(s) == CanonicalDuration(t) <==> ParseDuration(s) == ParseDuration(t)
  {
    DurationNormalForm(s);
    DurationNormalForm(t);
  }

  /** The largest unit that divides a duration. */
  function CoarsestUnit(ms: nat): (u: string)
    ensures DurationUnit(u) > 0 && ms % DurationUnit(u) == 0
    ensures forall unit ::
              DurationUnit(unit) > 0 && ms % DurationUnit(unit) == 0 ==> DurationUnit(unit) <= DurationUnit(u)
  {
    if ms % 3_600_000 == 0 then "h" else if ms % 60_000 == 0 then "m" else if ms % 1000 == 0 then "s" else "ms"
  }

  lemma CoarserIsFewer(n: nat, unit: nat, k: nat, coarser: nat)
    requires n * unit == k * coarser && 0 < unit <= coarser
    ensures k <= n
  {
    if k > n {
      Scale(n, k, unit);
      MulAtMost(unit, coarser, k);
    }
  }

  lemma TextUsesCoarsestUnit(ms: nat)
    ensures DurationText(ms) == DigitsOf(ms / DurationUnit(CoarsestUnit(ms))) + CoarsestUnit(ms)
  {
    assert ms / 1 == ms;
  }

  lemma CoarsestIsFewest(n: nat, unit: string, ms: nat)
    requires n > 0 && DurationUnit(unit) > 0 && ms == n * DurationUnit(unit)
    ensures ms / DurationUnit(CoarsestUnit(ms)) <= n
  {
    var u := CoarsestUnit(ms);
    ModOfMultiple(n, DurationUnit(unit));
    DivideExactly(ms, DurationUnit(u));
    CoarserIsFewer(n, DurationUnit(unit), ms / DurationUnit(u), DurationUnit(u));
  }

  /** No accepted spelling of the same duration has a smaller number than the
      canonical one. */
  lemma CanonicalDurationIsCoarsest(n: nat, unit: string)
    requires n > 0 && DurationUnit(unit) > 0
    ensures exists k: nat, u :: k <= n && DurationText(n * DurationUnit(unit)) == DigitsOf(k) + u
                           && DurationUnit(u) > 0 && k * DurationUnit(u) == n * DurationUnit(unit)
  {
    var ms := n * DurationUnit(unit);
    var u := CoarsestUnit(ms);
    TextUsesCoarsestUnit(ms);
    CoarsestIsFewest(n, unit, ms);
    DivideExactly(ms, DurationUnit(u));
  }

  lemma DivideExactly(total: nat, unit: nat)
    requires unit > 0 && total % unit == 0
    ensures (total / unit) * unit == total
  {
  }

  // ----- Powers of ten and 28-digit rounding ----------------------------------------------

  function Pow10(k: nat): (p: nat)
    ensures p >= 1
  {
    if k == 0 then 1 else 10 * Pow10(k - 1)
  }

  lemma Pow10Step(k: nat)
    ensures Pow10(k + 1) == 10 * Pow10(k)
  {
  }

  lemma {:induction false} Pow10Sum(a: nat, b: nat)
    ensures Pow10(a + b) == Pow10(a) * Pow10(b)
  {
    if a == 0 {
    } else {
      hide Pow10;
      Pow10Sum(a - 1, b);
      Pow10Step(a - 1 + b);
      Pow10Step(a - 1);
      Regroup(10, Pow10(b), Pow10(a - 1));
    }
  }

  lemma {:induction false} Pow10Monotone(a: nat, b: nat)
    requires a <= b
    ensures Pow10(a) <= Pow10(b)
  {
    if a >= b {
    } else {
      Pow10Monotone(a, b - 1);
    }
  }

  const PRECISION: nat := 28

  /** How many trailing digits of `p` lie beyond the precision. */
  function Excess(p: nat): nat {
    if p < Pow10(PRECISION) then 0 else 1 + Excess(p / 10)
  }

  /** A decimal number without its last `k` digits, those digits, and a number
      with `k` zeros behind it. */
  function DropDigits(p: nat, k: nat): nat
    decreases k
  {
    if k == 0 then p else DropDigits(p / 10, k - 1)
  }

  function LastDigits(p: nat, k: nat): nat
    decreases k
  {
    if k == 0 then 0 else 10 * LastDigits(p / 10, k - 1) + p % 10
  }

  function AppendZeros(q: nat, k: nat): nat
    decreases k
  {
    if k == 0 then q else 10 * AppendZeros(q, k - 1)
  }

  /** The value of an exact product after rounding half to even to the precision. */
  function Rounded(p: nat): nat {
    var k := Excess(p);
    var q, r := DropDigits(p, k), LastDigits(p, k);
    AppendZeros(if 2 * r > Pow10(k) || (2 * r == Pow10(k) && q % 2 == 1) then q + 1 else q, k)
  }

  // ----- Quantities ------------------------------------------------------------------------

  const KIB: nat := 1024
  const MIB: nat := 1024 * 1024
  const GIB: nat := 1024 * 1024 * 1024
  const TIB: nat := 1024 * 1024 * 1024 * 1024
  const MAX_QUANTITY: nat := 16 * TIB

  function QuantityUnit(unit: string): nat {
    if unit == "KiB" then KIB else if unit == "MiB" then MIB
    else if unit == "GiB" then GIB else if unit == "TiB" then TIB else 0
  }

  /** The accepted notation taken apart: `digits` without the point, `scale` of
      them behind it, times `unit`. */
  datatype Quantity = Quantity(digits: string, scale: nat, unit: nat)

  function Notation(s: string): (q: Option<Quantity>)
    ensures q.Some? ==>
              AllDigits(q.value.digits) && q.value.digits != [] && q.value.digits[0] != '0' && q.value.unit > 0
  {
    var n := DigitRun(s);
    if n == 0 || s[0] == '0' then None
    else if n < |s| && s[n] == '.' then
      var rest := s[n + 1..];
      var m := DigitRun(rest);
      if m == 0 || QuantityUnit(rest[m..]) == 0 then None
      else Some(Quantity(s[..n] + rest[..m], m, QuantityUnit(rest[m..])))
    else if QuantityUnit(s[n..]) == 0 then None
    else Some(Quantity(s[..n], 0, QuantityUnit(s[n..])))
  }

  /** The exact number of bytes, times 10^scale. */
  function Scaled(q: Quantity): nat
    requires AllDigits(q.digits)
  {
    NatOf(q.digits) * q.unit
  }

  /** `scaled` / 10^scale as whole bytes in range. */
  function WholeBytes(scaled: nat, scale: nat): Option<nat> {
    if LastDigits(scaled, scale) != 0 then None
    else
      var bytes := DropDigits(scaled, scale);
      if bytes == 0 || bytes > MAX_QUANTITY then None else Some(bytes)
  }

  /** The size in bytes, or nothing where the source raises. */
  function ParseQuantity(s: string): Option<nat> {
    match Notation(s)
    case None => None
    case Some(q) => WholeBytes(Rounded(Scaled(q)), q.scale)
  }

  /** What the notation means in exact arithmetic. */
  function ExactQuantity(s: string): Option<nat> {
    match Notation(s)
    case None => None
    case Some(q) => WholeBytes(Scaled(q), q.scale)
  }

  function QuantityText(bytes: nat): Option<string> {
    if bytes % TIB == 0 then Some(DigitsOf(bytes / TIB) + "TiB")
    else if bytes % GIB == 0 then Some(DigitsOf(bytes / GIB) + "GiB")
    else if bytes % MIB == 0 then Some(DigitsOf(bytes / MIB) + "MiB")
    else if bytes % KIB == 0 then Some(DigitsOf(bytes / KIB) + "KiB")
    else None
  }

  function CanonicalQuantity(s: string): Option<string> {
    if ParseQuantity(s).None? then None else QuantityText(ParseQuantity(s).value)
  }

  // ----- The digits in terms of division ------------------------------------------------------

  lemma {:induction false} DigitsSplit(p: nat, k: nat)
    ensures DropDigits(p, k) == p / Pow10(k) && LastDigits(p, k) == p % Pow10(k)
  {
    DigitsAddUp(p, k);
    DivisionIs(p, Pow10(k), DropDigits(p, k), LastDigits(p, k));
  }

  lemma {:induction false} DigitsAddUp(p: nat, k: nat)
    ensures p == DropDigits(p, k) * Pow10(k) + LastDigits(p, k) && LastDigits(p, k) < Pow10(k)
    decreases k
  {
    if k == 0 {
    } else {
      DigitsAddUp(p / 10, k - 1);
      TenTimes(DropDigits(p, k), Pow10(k - 1));
    }
  }

  lemma TenTimes(d: nat, power: nat)
    ensures d * (10 * power) == 10 * (d * power)
  {
  }

  lemma {:induction false} ZerosMultiply(q: nat, k: nat)
    ensures AppendZeros(q, k) == q * Pow10(k)
    decreases k
  {
    if k == 0 {
    } else {
      ZerosMultiply(q, k - 1);
      TenTimes(q, Pow10(k - 1));
    }
  }

  /** Round half to even, in units of `unit`. */
  function RoundTo(p: nat, unit: nat): nat
    requires unit > 0
  {
    var q, r := p / unit, p % unit;
    if 2 * r > unit || (2 * r == unit && q % 2 == 1) then (q + 1) * unit else q * unit
  }

  lemma RoundedIs(p: nat)
    ensures Rounded(p) == RoundTo(p, Pow10(Excess(p)))
  {
    var k := Excess(p);
    DigitsSplit(p, k);
    ZerosMultiply(p / Pow10(k), k);
    ZerosMultiply(p / Pow10(k) + 1, k);
  }

  function WholeQuotient(scaled: nat, unit: nat): Option<nat>
    requires unit > 0
  {
    if scaled % unit != 0 || scaled / unit == 0 || scaled / unit > MAX_QUANTITY then None else Some(scaled / unit)
  }

  lemma WholeBytesIs(scaled: nat, scale: nat)
    ensures WholeBytes(scaled, scale) == WholeQuotient(scaled, Pow10(scale))
  {
    DigitsSplit(scaled, scale);
  }

  // ----- When the 28 digits are enough -----------------------------------------------------

  lemma ExactBelowPrecision(p: nat)
    requires p < Pow10(PRECISION)
    ensures Rounded(p) == p
  {
    assert Excess(p) == 0;
  }

  /** As long as the product fits 28 digits the parse is exact, both ways. */
  lemma SmallProductsAreExact(s: string)
    requires Notation(s).Some? ==> Scaled(Notation(s).value) < Pow10(PRECISION)
    ensures ParseQuantity(s) == ExactQuantity(s)
  {
    if Notation(s).Some? { ExactBelowPrecision(Scaled(Notation(s).value)); }
  }

  lemma {:induction false} ExcessBound(p: nat)
    ensures Excess(p) > 0 ==> p >= Pow10(PRECISION - 1 + Excess(p))
  {
    if p < Pow10(PRECISION) {
    } else {
      ExcessBound(p / 10);
      var e := Excess(p);
      assert Pow10(PRECISION - 1 + e) == 10 * Pow10(PRECISION - 1 + e - 1);
    }
  }

  /** Division by `unit` has one answer. */
  lemma DivisionIs(p: nat, unit: nat, q: nat, r: nat)
    requires r < unit && p == q * unit + r
    ensures p / unit == q && p % unit == r
  {
    var k := p / unit;
    assert p == k * unit + p % unit;
    assert (k + 1) * unit == k * unit + unit && (q + 1) * unit == q * unit + unit;
    if k < q {
      MulAtMost(k + 1, q, unit);
    } else if k > q {
      MulAtMost(q + 1, k, unit);
    }
  }

  lemma ModOfMultiple(x: nat, unit: nat)
    requires unit > 0
    ensures (x * unit) % unit == 0 && (x * unit) / unit == x
  {
    DivisionIs(x * unit, unit, x, 0);
  }

  lemma RoundingKeepsMultiples(p: nat, x: nat, unit: nat)
    requires unit > 0 && p == x * unit
    ensures RoundTo(p, unit) == p
  {
    DivisionIs(p, unit, x, 0);
  }

  lemma Regroup(v: nat, a: nat, b: nat)
    ensures v * (a * b) == (v * b) * a
  {
  }

  lemma RoundingKeepsWhole(v: nat, scale: nat, e: nat)
    requires e <= scale
    ensures RoundTo(v * Pow10(scale), Pow10(e)) == v * Pow10(scale)
  {
    Pow10Sum(e, scale - e);
    Regroup(v, Pow10(e), Pow10(scale - e));
    RoundingKeepsMultiples(v * Pow10(scale), v * Pow10(scale - e), Pow10(e));
  }

  lemma QuantityBound()
    ensures MAX_QUANTITY < Pow10(14)
  {
    assert Pow10(7) == 10_000_000;
    Pow10Sum(7, 7);
  }

  lemma ScaleOrder(a: nat, b: nat)
    requires Pow10(a) < Pow10(b)
    ensures a < b
  {
    if b <= a { Pow10Monotone(b, a); }
  }

  /** The digits beyond the precision of a whole byte count in range are among
      the zeros of its scale. */
  lemma ExcessWithinScale(v: nat, scale: nat, p: nat)
    requires 0 < v <= MAX_QUANTITY && p == v * Pow10(scale)
    ensures Excess(p) <= scale
  {
    hide Pow10, Excess;
    var e := Excess(p);
    if e > 0 {
      ExcessBound(p);
      QuantityBound();
      Pow10Sum(14, scale);
      Scale(v, Pow10(14), Pow10(scale));
      ScaleOrder(PRECISION - 1 + e, 14 + scale);
    }
  }

  /** Whole byte counts in range have at most 14 digits, so rounding to 28
      cannot touch them, however many zeros their notation carries. */
  lemma WholeBytesSurviveRounding(v: nat, scale: nat, p: nat)
    requires 0 < v <= MAX_QUANTITY && p == v * Pow10(scale)
    ensures Rounded(p) == p
  {
    ExcessWithinScale(v, scale, p);
    RoundedIs(p);
    RoundingKeepsWhole(v, scale, Excess(p));
  }

  lemma Scale(x: nat, y: nat, z: nat)
    requires x < y && z > 0
    ensures x * z < y * z
  {
  }

  /** Whatever exact arithmetic accepts, the parse accepts with the same value:
      rounding never loses a legal size. */
  lemma ExactQuantitiesParse(s: string)
    requires ExactQuantity(s).Some?
    ensures ParseQuantity(s) == ExactQuantity(s)
  {
    var q := Notation(s).value;
    var v := ExactQuantity(s).value;
    WholeBytesIs(Scaled(q), q.scale);
    ExactMultiple(Scaled(q), Pow10(q.scale));
    WholeBytesSurviveRounding(v, q.scale, Scaled(q));
  }

  lemma WholeBytesOf(v: nat, scale: nat)
    ensures WholeBytes(v * Pow10(scale), scale) == if v == 0 || v > MAX_QUANTITY then None else Some(v)
  {
    WholeBytesIs(v * Pow10(scale), scale);
    ModOfMultiple(v, Pow10(scale));
  }

  /** Rounding may move a product, but not across a bound it is far beyond. */
  lemma RoundedStaysLarge(v: nat, scale: nat, p: nat)
    requires v > MAX_QUANTITY && p == v * Pow10(scale)
    ensures WholeBytes(Rounded(p), scale).None?
  {
    RoundedIs(p);
    if Excess(p) <= scale {
      RoundingKeepsWhole(v, scale, Excess(p));
      WholeBytesOf(v, scale);
    } else {
      ExcessBound(p);
      HugeRounds(p, scale, Excess(p));
    }
  }

  lemma HugeRounds(p: nat, scale: nat, e: nat)
    requires scale < e == Excess(p) && p >= Pow10(PRECISION - 1 + e)
    ensures WholeBytes(Rounded(p), scale).None?
  {
    hide Pow10, Excess, Rounded;
    var unit := Pow10(e);
    Pow10Sum(PRECISION - 1, e);
    FloorAtLeast(p, Pow10(PRECISION - 1), unit);
    RoundedIs(p);
    WholeBytesIs(Rounded(p), scale);
    assert Rounded(p) >= Pow10(PRECISION - 1) * unit;
    Pow10Monotone(scale, e);
    Pow10Monotone(14, PRECISION - 1);
    QuantityBound();
    LargeQuotient(Rounded(p), MAX_QUANTITY + 1, Pow10(PRECISION - 1), unit, Pow10(scale));
  }

  lemma FloorAtLeast(p: nat, k: nat, unit: nat)
    requires unit > 0 && p >= k * unit
    ensures (p / unit) * unit >= k * unit
    ensures RoundTo(p, unit) >= k * unit
  {
    var q := p / unit;
    assert p == q * unit + p % unit && (q + 1) * unit == q * unit + unit;
    MulAbove(q + 1, k, unit);
    MulAtMost(k, q, unit);
  }

  lemma MulAbove(x: nat, y: nat, z: nat)
    requires x * z > y * z
    ensures x > y
  {
    if x <= y { MulAtMost(x, y, z); }
  }

  lemma MulAtMost(x: nat, y: nat, z: nat)
    requires x <= y
    ensures x * z <= y * z
  {
  }

  lemma LargeQuotient(r: nat, bound: nat, k: nat, unit: nat, small: nat)
    requires r >= k * unit && k >= bound && 0 < small <= unit
    ensures r / small >= bound
  {
    MulAtMost(bound, k, unit);
    MulAtMost(small, unit, bound);
    assert r >= bound * small;
    if r / small < bound {
      MulAtMost(r / small + 1, bound, small);
    }
  }

  /** `v` is a size in range, and `p` / 10^scale lies within half a unit of the
      28th digit of `p` from it. */
  predicate NearWhole(p: nat, scale: nat, v: nat) {
    && 0 < v <= MAX_QUANTITY
    && 2 * p <= 2 * (v * Pow10(scale)) + Pow10(Excess(p))
    && 2 * (v * Pow10(scale)) <= 2 * p + Pow10(Excess(p))
  }

  lemma RoundToIsNear(p: nat, unit: nat)
    requires unit > 0
    ensures 2 * p <= 2 * RoundTo(p, unit) + unit && 2 * RoundTo(p, unit) <= 2 * p + unit
  {
    var q, r := p / unit, p % unit;
    assert p == q * unit + r && (q + 1) * unit == q * unit + unit;
  }

  /** An even multiple of the unit attracts everything within half a unit, ties included. */
  lemma RoundsToEven(p: nat, x: nat, unit: nat)
    requires x % 2 == 0 && 2 * p <= 2 * (x * unit) + unit && 2 * (x * unit) <= 2 * p + unit && unit > 1
    ensures RoundTo(p, unit) == x * unit
  {
    if p >= x * unit {
      DivisionIs(p, unit, x, p - x * unit);
    } else {
      assert x * unit == (x - 1) * unit + unit;
      DivisionIs(p, unit, x - 1, p - (x - 1) * unit);
    }
  }

  lemma NearBound(p: nat, whole: nat, k: nat, unit: nat)
    requires k >= 1 && p >= (10 * k) * unit && 2 * p <= 2 * whole + unit
    ensures whole >= k * unit
  {
    MulAtMost(k + 1, 10 * k, unit);
    assert (k + 1) * unit == k * unit + unit;
  }

  lemma NearPower(p: nat, whole: nat, e: nat)
    requires p >= Pow10(PRECISION - 1 + e) && 2 * p <= 2 * whole + Pow10(e)
    ensures whole >= Pow10(PRECISION - 2 + e)
  {
    Pow10Sum(PRECISION - 2, e);
    Pow10Sum(PRECISION - 1, e);
    assert Pow10(PRECISION - 1) == 10 * Pow10(PRECISION - 2);
    NearBound(p, whole, Pow10(PRECISION - 2), Pow10(e));
  }

  lemma SizeBelow(v: nat, scale: nat)
    requires v <= MAX_QUANTITY
    ensures v * Pow10(scale) < Pow10(14 + scale)
  {
    QuantityBound();
    Pow10Sum(14, scale);
    Scale(v, Pow10(14), Pow10(scale));
  }

  /** Any product near a size in range has its 28 digits reach behind the point. */
  lemma NearExcess(p: nat, scale: nat, v: nat)
    requires NearWhole(p, scale, v)
    ensures Excess(p) == 0 || Excess(p) < scale
  {
    hide Pow10, Excess;
    var e := Excess(p);
    if e > 0 {
      ExcessBound(p);
      NearPower(p, v * Pow10(scale), e);
      SizeBelow(v, scale);
      ScaleOrder(PRECISION - 2 + e, 14 + scale);
    }
  }

  lemma EvenMultiple(v: nat, scale: nat, e: nat) returns (x: nat)
    requires e < scale
    ensures x % 2 == 0 && x * Pow10(e) == v * Pow10(scale)
  {
    Pow10Sum(e, scale - e);
    Regroup(v, Pow10(e), Pow10(scale - e));
    var half := v * (5 * Pow10(scale - e - 1));
    x := v * Pow10(scale - e);
    assert x == 2 * half;
  }

  lemma NearIsRounded(p: nat, scale: nat, v: nat)
    requires NearWhole(p, scale, v)
    ensures Rounded(p) == v * Pow10(scale)
  {
    var e := Excess(p);
    RoundedIs(p);
    NearExcess(p, scale, v);
    if e == 0 {
      assert Pow10(0) == 1;
      RoundingKeepsMultiples(p, p, 1);
    } else {
      var x := EvenMultiple(v, scale, e);
      assert Pow10(e) == 10 * Pow10(e - 1);
      RoundsToEven(p, x, Pow10(e));
    }
  }

  lemma WholeBytesAre(scaled: nat, scale: nat, v: nat)
    ensures WholeBytes(scaled, scale) == Some(v) <==> 0 < v <= MAX_QUANTITY && scaled == v * Pow10(scale)
  {
    WholeBytesIs(scaled, scale);
    if scaled == v * Pow10(scale) { WholeBytesOf(v, scale); }
    if WholeBytes(scaled, scale) == Some(v) { DivideExactly(scaled, Pow10(scale)); }
  }

  /** What the parse accepts, on the digits: a size is read as `v` bytes exactly
      when its exact product is within half a unit of its own 28th digit of `v`. */
  lemma ParseIsNearestWhole(s: string, v: nat)
    requires Notation(s).Some?
    ensures var q := Notation(s).value; ParseQuantity(s) == Some(v) <==> NearWhole(Scaled(q), q.scale, v)
  {
    var q := Notation(s).value;
    var p := Scaled(q);
    WholeBytesAre(Rounded(p), q.scale, v);
    if NearWhole(p, q.scale, v) { NearIsRounded(p, q.scale, v); }
    RoundedIs(p);
    RoundToIsNear(p, Pow10(Excess(p)));
  }

  /** The parse differs from exact arithmetic exactly when the product is no whole
      number of bytes but lies within half a unit of its 28th digit of one in range. */
  lemma ParseIsExactUnlessRounded(s: string)
    requires Notation(s).Some?
    ensures var q := Notation(s).value;
            ParseQuantity(s) != ExactQuantity(s)
            <==> exists v: nat :: NearWhole(Scaled(q), q.scale, v) && Scaled(q) != v * Pow10(q.scale)
  {
    var q := Notation(s).value;
    if ParseQuantity(s) != ExactQuantity(s) {
      if ExactQuantity(s).Some? { ExactQuantitiesParse(s); }
      var v := ParseQuantity(s).value;
      ParseIsNearestWhole(s, v);
      WholeBytesAre(Scaled(q), q.scale, v);
    }
    if v: nat :| NearWhole(Scaled(q), q.scale, v) && Scaled(q) != v * Pow10(q.scale) {
      ParseIsNearestWhole(s, v);
      WholeBytesAre(Scaled(q), q.scale, v);
    }
  }

  // ----- The rounding that accepts a fraction of a byte -----------------------------------------

  lemma {:induction false} NumeralLength(n: nat, k: nat)
    requires Pow10(k) <= n < Pow10(k + 1)
    ensures |DigitsOf(n)| == k + 1
  {
    if k == 0 {
    } else {
      NumeralLength(n / 10, k - 1);
    }
  }

  /** The digits of the 32-character size 1.000000002163687895517796278TiB. */
  const FRACTIONAL_DIGITS: nat := 1_000000002163687895517796278

  lemma RoundsDown(p: nat, k: nat, q: nat, r: nat)
    requires Excess(p) == k && p == q * Pow10(k) + r && 2 * r < Pow10(k)
    ensures Rounded(p) == q * Pow10(k)
  {
    RoundedIs(p);
    DivisionIs(p, Pow10(k), q, r);
  }

  /** The product of those digits and a TiB: so many bytes, and a rest behind the point. */
  const FRACTIONAL_PRODUCT: nat := FRACTIONAL_DIGITS * TIB

  const FRACTIONAL_BYTES: nat := 1099511630155

  const FRACTIONAL_REST: nat := 134217728

  lemma FractionalExcess()
    ensures Excess(FRACTIONAL_PRODUCT) == 12
  {
    hide Excess, Pow10;
    Powers();
    Pow10Step(39);
    ExcessIs(FRACTIONAL_PRODUCT, 12);
  }

  lemma FractionalRounding()
    ensures FRACTIONAL_PRODUCT % Pow10(27) == FRACTIONAL_REST
    ensures Rounded(FRACTIONAL_PRODUCT) == FRACTIONAL_BYTES * Pow10(27)
  {
    hide Excess, Pow10, Rounded;
    FractionalExcess();
    Powers();
    DivisionIs(FRACTIONAL_PRODUCT, Pow10(27), FRACTIONAL_BYTES, FRACTIONAL_REST);
    RoundsDown(FRACTIONAL_PRODUCT, 12, FRACTIONAL_BYTES * 1_000_000_000_000_000, FRACTIONAL_REST);
  }

  lemma Powers()
    ensures Pow10(12) == 1_000_000_000_000
    ensures Pow10(27) == 1_000_000_000_000_000_000_000_000_000
    ensures Pow10(28) == 10_000_000_000_000_000_000_000_000_000
    ensures Pow10(39) == 1_000_000_000_000_000_000_000_000_000_000_000_000_000
  {
    assert Pow10(6) == 1_000_000;
    Pow10Sum(6, 6);
    Pow10Sum(12, 12);
    assert Pow10(3) == 1000;
    Pow10Sum(24, 3);
    Pow10Sum(27, 12);
  }

  lemma ExcessStep(p: nat)
    ensures Excess(p) == if p < Pow10(PRECISION) then 0 else 1 + Excess(p / 10)
  {
  }

  lemma {:induction false} ExcessIs(p: nat, e: nat)
    requires e > 0 && Pow10(PRECISION - 1 + e) <= p < Pow10(PRECISION + e)
    ensures Excess(p) == e
    decreases e
  {
    hide Pow10, Excess;
    Pow10Monotone(PRECISION, PRECISION - 1 + e);
    Pow10Step(PRECISION + e - 1);
    ExcessStep(p);
    if e == 1 {
      ExcessStep(p / 10);
    } else {
      Pow10Step(PRECISION - 2 + e);
      ExcessIs(p / 10, e - 1);
    }
  }

  lemma NotationWithPoint(whole: string, fraction: string, unit: string)
    requires whole != [] && whole[0] != '0' && fraction != [] && AllDigits(whole) && AllDigits(fraction)
    requires QuantityUnit(unit) > 0
    ensures Notation(whole + ("." + (fraction + unit)))
         == Some(Quantity(whole + fraction, |fraction|, QuantityUnit(unit)))
  {
    var rest := fraction + unit;
    var s := whole + ("." + rest);
    assert !IsDigit(unit[0]);
    DigitRunIs(whole, "." + rest);
    DigitRunIs(fraction, unit);
    assert s[0] == whole[0] && s[..|whole|] == whole && s[|whole|] == '.' && s[|whole| + 1..] == rest;
    assert rest[..|fraction|] == fraction && rest[|fraction|..] == unit;
  }

  lemma NotationWithoutPoint(digits: string, unit: string)
    requires digits != [] && digits[0] != '0' && AllDigits(digits) && QuantityUnit(unit) > 0
    ensures Notation(digits + unit) == Some(Quantity(digits, 0, QuantityUnit(unit)))
  {
    var s := digits + unit;
    assert !IsDigit(unit[0]) && unit[0] != '.';
    DigitRunIs(digits, unit);
    assert s[0] == digits[0] && s[..|digits|] == digits && s[|digits|..] == unit && s[|digits|] == unit[0];
  }

  lemma FractionalValue(q: Quantity)
    requires AllDigits(q.digits) && NatOf(q.digits) == FRACTIONAL_DIGITS && q.scale == 27 && q.unit == TIB
    ensures WholeBytes(Rounded(Scaled(q)), 27) == Some(FRACTIONAL_BYTES)
    ensures WholeBytes(Scaled(q), 27).None?
  {
    hide Pow10, Rounded, WholeBytes;
    FractionalRounding();
    assert Scaled(q) == FRACTIONAL_PRODUCT;
    WholeBytesOf(FRACTIONAL_BYTES, 27);
    WholeBytesIs(Scaled(q), 27);
  }

  lemma FractionalSize(s: string, q: Quantity)
    requires Notation(s) == Some(q) && NatOf(q.digits) == FRACTIONAL_DIGITS && q.scale == 27 && q.unit == TIB
    ensures ParseQuantity(s) == Some(FRACTIONAL_BYTES) && ExactQuantity(s).None?
  {
    FractionalValue(q);
  }

  lemma SpellWithPoint(digits: string) returns (s: string)
    requires |digits| > 1 && AllDigits(digits) && digits[0] != '0'
    ensures |s| == |digits| + 4 && Notation(s) == Some(Quantity(digits, |digits| - 1, TIB))
  {
    var whole, fraction := digits[..1], digits[1..];
    var unit := "TiB";
    assert whole + fraction == digits;
    NotationWithPoint(whole, fraction, unit);
    s := whole + ("." + (fraction + unit));
  }

  lemma FractionalLength()
    ensures |DigitsOf(FRACTIONAL_DIGITS)| == 28
  {
    hide DigitsOf, Pow10;
    Powers();
    NumeralLength(FRACTIONAL_DIGITS, 27);
  }

  /** A size that fits the 32-character limit and is not a whole number of bytes
      is nevertheless accepted: the parse is not exact on all inputs. */
  lemma FractionalByteAccepted() returns (s: string)
    ensures |s| == 32 && ParseQuantity(s) == Some(FRACTIONAL_BYTES) && ExactQuantity(s).None?
  {
    hide DigitsOf, NatOf, ParseQuantity, ExactQuantity, Notation;
    FractionalLength();
    s := SpellWithPoint(DigitsOf(FRACTIONAL_DIGITS));
    FractionalSize(s, Notation(s).value);
  }

  // ----- Canonical quantities ---------------------------------------------------------------------

  lemma WholeNumberValue(v: nat)
    requires 0 < v <= MAX_QUANTITY
    ensures WholeBytes(Rounded(v), 0) == Some(v)
  {
    assert Pow10(0) == 1;
    WholeBytesSurviveRounding(v, 0, v);
    WholeBytesOf(v, 0);
  }

  lemma ParseOfQuantityNumeral(n: nat, unit: string)
    requires n > 0 && QuantityUnit(unit) > 0 && n * QuantityUnit(unit) <= MAX_QUANTITY
    ensures ParseQuantity(DigitsOf(n) + unit) == Some(n * QuantityUnit(unit))
  {
    NotationWithoutPoint(DigitsOf(n), unit);
    Product(n, QuantityUnit(unit));
    WholeNumberValue(n * QuantityUnit(unit));
  }

  lemma ParseOfExactQuantity(bytes: nat, unit: string)
    requires 0 < bytes <= MAX_QUANTITY && QuantityUnit(unit) > 0 && bytes % QuantityUnit(unit) == 0
    ensures ParseQuantity(DigitsOf(bytes / QuantityUnit(unit)) + unit) == Some(bytes)
  {
    ExactMultiple(bytes, QuantityUnit(unit));
    ParseOfQuantityNumeral(bytes / QuantityUnit(unit), unit);
  }

  lemma ParseOfQuantityText(bytes: nat)
    requires 0 < bytes <= MAX_QUANTITY && QuantityText(bytes).Some?
    ensures ParseQuantity(QuantityText(bytes).value) == Some(bytes)
  {
    if bytes % TIB == 0 { ParseOfExactQuantity(bytes, "TiB"); }
    else if bytes % GIB == 0 { ParseOfExactQuantity(bytes, "GiB"); }
    else if bytes % MIB == 0 { ParseOfExactQuantity(bytes, "MiB"); }
    else { ParseOfExactQuantity(bytes, "KiB"); }
  }

  lemma CoarseUnit(bytes: nat, unit: nat, factor: nat)
    requires unit == factor * KIB && unit > 0 && bytes % unit == 0
    ensures bytes % KIB == 0
  {
    var k := bytes / unit;
    assert bytes == k * unit;
    assert k * (factor * KIB) == (k * factor) * KIB;
    ModOfMultiple(k * factor, KIB);
  }

  lemma TextDefined(bytes: nat)
    ensures QuantityText(bytes).Some? <==> bytes % KIB == 0
  {
    if bytes % TIB == 0 { CoarseUnit(bytes, TIB, GIB); }
    else if bytes % GIB == 0 { CoarseUnit(bytes, GIB, MIB); }
    else if bytes % MIB == 0 { CoarseUnit(bytes, MIB, KIB); }
  }

  /** A canonical size exists exactly for accepted sizes that are multiples of
      1024 bytes; other accepted sizes make the source raise. */
  lemma CanonicalQuantityDefined(s: string)
    ensures CanonicalQuantity(s).Some? <==> ParseQuantity(s).Some? && ParseQuantity(s).value % KIB == 0
  {
    if ParseQuantity(s).Some? { TextDefined(ParseQuantity(s).value); }
  }

  lemma OneAndAHalf(s: string, q: Quantity)
    requires Notation(s) == Some(q) && NatOf(q.digits) == 15 && q.scale == 1 && q.unit == KIB
    ensures ParseQuantity(s) == Some(1536) && CanonicalQuantity(s).None?
  {
    assert Pow10(1) == 10 * Pow10(0);
    WholeBytesSurviveRounding(1536, 1, Scaled(q));
    WholeBytesOf(1536, 1);
    TextDefined(1536);
  }

  /** "1.5KiB" is an accepted size without a canonical spelling. */
  lemma AcceptedWithoutCanonicalForm()
    ensures ParseQuantity("1.5KiB") == Some(1536) && CanonicalQuantity("1.5KiB").None?
  {
    assert "1.5KiB" == "1" + ("." + ("5" + "KiB"));
    NotationWithPoint("1", "5", "KiB");
    var digits := "1" + "5";
    assert digits[..1] == "1" && NatOf("1") == 1 && NatOf(digits) == 15;
    OneAndAHalf("1.5KiB", Quantity(digits, 1, KIB));
  }

  /** Where it exists, the canonical spelling keeps the bytes and is its own
      canonical spelling. */
  lemma QuantityNormalForm(s: string)
    requires CanonicalQuantity(s).Some?
    ensures var c := CanonicalQuantity(s).value;
            ParseQuantity(c) == ParseQuantity(s) && CanonicalQuantity(c) == Some(c)
  {
    ParseOfQuantityText(ParseQuantity(s).value);
  }

  lemma ParsedQuantityInRange(s: string)
    requires ParseQuantity(s).Some?
    ensures 0 < ParseQuantity(s).value <= MAX_QUANTITY
  {
  }

  lemma {:induction false} NumeralIsShort(n: nat, k: nat)
    requires k > 0 && n < Pow10(k)
    ensures |DigitsOf(n)| <= k
  {
    if n < 10 {
    } else {
      assert Pow10(k) == 10 * Pow10(k - 1) && Pow10(0) == 1;
      NumeralIsShort(n / 10, k - 1);
    }
  }

  lemma DivisionShrinks(n: nat, unit: nat, bound: nat)
    requires unit > 0 && n < bound
    ensures n / unit < bound
  {
    var k := n / unit;
    assert n == k * unit + n % unit;
    MulAtMost(1, unit, k);
    assert unit * k == k * unit;
  }

  lemma QuotientIsShort(n: nat, unit: nat)
    requires n <= MAX_QUANTITY && unit > 0
    ensures |DigitsOf(n / unit)| <= 14
  {
    QuantityBound();
    DivisionShrinks(n, unit, Pow10(14));
    NumeralIsShort(n / unit, 14);
  }

  /** Canonical spellings stay within the 32 characters allowed for a size. */
  lemma QuantityTextIsShort(bytes: nat)
    requires 0 < bytes <= MAX_QUANTITY && QuantityText(bytes).Some?
    ensures 1 <= |QuantityText(bytes).value| <= 32
  {
    QuotientIsShort(bytes, TIB);
    QuotientIsShort(bytes, GIB);
    QuotientIsShort(bytes, MIB);
    QuotientIsShort(bytes, KIB);
  }

  lemma DurationTextIsShort(ms: nat)
    requires ms <= MAX_DURATION
    ensures 1 <= |DurationText(ms)| <= 32
  {
    QuotientIsShort(ms, 3_600_000);
    QuotientIsShort(ms, 60_000);
    QuotientIsShort(ms, 1000);
    QuotientIsShort(ms, 1);
    assert ms / 1 == ms;
  }

  lemma QuantitiesAgree(s: string, t: string)
    requires CanonicalQuantity(s).Some? && CanonicalQuantity(t).Some?
    ensures CanonicalQuantity(s) == CanonicalQuantity(t) <==> ParseQuantity(s) == ParseQuantity(t)
  {
    QuantityNormalForm(s);
    QuantityNormalForm(t);
  }
}
