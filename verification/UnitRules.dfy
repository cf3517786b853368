/** The accepted spellings of durations and sizes, as patterns over numeral and
    unit, and the coarsest unit of a canonical size. */
module UnitRules {
  import opened Wrappers
  import opened Text
  import opened Units

  const DURATION_UNITS: map<string, nat> := map["ms" := 1, "s" := 1000, "m" := 60_000, "h" := 3_600_000]

  const SIZE_UNITS: map<string, nat> :=
    map["KiB" := 1024, "MiB" := 1_048_576, "GiB" := 1_073_741_824, "TiB" := 1_099_511_627_776]

  /** Digits without a leading zero. */
  ghost predicate Numeral(d: string) { d != [] && AllDigits(d) && d[0] != '0' }

  lemma UnitsAreListed(unit: string)
    ensures DurationUnit(unit) == if unit in DURATION_UNITS then DURATION_UNITS[unit] else 0
    ensures QuantityUnit(unit) == if unit in SIZE_UNITS then SIZE_UNITS[unit] else 0
  {
  }

  // ----- Durations ---------------------------------------------------------------------

  ghost predicate SpelledDuration(s: string, d: string, unit: string) {
    Numeral(d) && unit in DURATION_UNITS && s == d + unit
  }

  lemma ParseOfSpelled(s: string, d: string, unit: string)
    requires SpelledDuration(s, d, unit)
    ensures ParseDuration(s)
         == var ms := NatOf(d) * DURATION_UNITS[unit]; if ms <= 31_536_000_000 then Some(ms) else None
  {
    hide NatOf;
    assert !IsDigit(unit[0]);
    DigitRunIs(d, unit);
    assert s[0] == d[0] && s[..|d|] == d && s[|d|..] == unit;
    UnitsAreListed(unit);
  }

  /** A duration is accepted with a value exactly if it is a numeral followed by
      one of the four units, the value is their product, and that is at most a
      year of 365 days. */
  lemma DurationNotation(s: string, ms: nat)
    ensures ParseDuration(s) == Some(ms) <==>
              exists d, unit ::
                SpelledDuration(s, d, unit) && ms == NatOf(d) * DURATION_UNITS[unit] && ms <= 31_536_000_000
  {
    hide NatOf, ParseDuration;
    if ParseDuration(s) == Some(ms) {
      var d, unit := DurationParts(s);
      ParseOfSpelled(s, d, unit);
    }
    if d, unit :| SpelledDuration(s, d, unit) && ms == NatOf(d) * DURATION_UNITS[unit] && ms <= 31_536_000_000 {
      ParseOfSpelled(s, d, unit);
    }
  }

  lemma DurationParts(s: string) returns (d: string, unit: string)
    requires ParseDuration(s).Some?
    ensures SpelledDuration(s, d, unit)
  {
    hide NatOf;
    var n := DigitRun(s);
    d, unit := s[..n], s[n..];
    assert s == d + unit && d[0] == s[0];
    UnitsAreListed(unit);
  }

  // ----- Sizes ----------------------------------------------------------------------------

  ghost predicate SpelledSize(s: string, q: Quantity, whole: string, fraction: string, unit: string) {
    && Numeral(whole) && AllDigits(fraction) && unit in SIZE_UNITS
    && s == whole + ((if fraction == "" then "" else "." + fraction) + unit)
    && q == Quantity(whole + fraction, |fraction|, SIZE_UNITS[unit])
  }

  lemma NotationOfSpelled(s: string, q: Quantity, whole: string, fraction: string, unit: string)
    requires SpelledSize(s, q, whole, fraction, unit)
    ensures Notation(s) == Some(q)
  {
    hide Notation;
    UnitsAreListed(unit);
    if fraction == "" {
      NotationWithoutPoint(whole, unit);
      assert "" + unit == unit && whole + fraction == whole;
    } else {
      NotationWithPoint(whole, fraction, unit);
      assert "." + fraction + unit == "." + (fraction + unit);
    }
  }

  lemma Rejoins(s: string, n: nat, m: nat)
    requires n < |s| && s[n] == '.' && m <= |s| - n - 1
    ensures s == s[..n] + ("." + s[n + 1..][..m] + s[n + 1..][m..])
  {
    var rest := s[n + 1..];
    assert rest == rest[..m] + rest[m..];
    assert "." + rest[..m] + rest[m..] == "." + rest;
    assert s == s[..n] + ([s[n]] + rest);
  }

  lemma PartsWithPoint(s: string, n: nat) returns (whole: string, fraction: string, unit: string)
    requires Notation(s).Some? && n == DigitRun(s) < |s| && s[n] == '.'
    ensures SpelledSize(s, Notation(s).value, whole, fraction, unit)
  {
    hide DigitRun, QuantityUnit;
    var rest := s[n + 1..];
    var m := DigitRun(rest);
    whole, fraction, unit := s[..n], rest[..m], rest[m..];
    Rejoins(s, n, m);
    UnitsAreListed(unit);
    assert whole[0] == s[0];
  }

  lemma PartsWithoutPoint(s: string, n: nat) returns (whole: string, unit: string)
    requires Notation(s).Some? && n == DigitRun(s) && !(n < |s| && s[n] == '.')
    ensures SpelledSize(s, Notation(s).value, whole, "", unit)
  {
    whole, unit := s[..n], s[n..];
    assert whole[0] == s[0] && s == whole + ("" + unit) && whole + "" == whole;
    UnitsAreListed(unit);
  }

  lemma SizeParts(s: string) returns (whole: string, fraction: string, unit: string)
    requires Notation(s).Some?
    ensures SpelledSize(s, Notation(s).value, whole, fraction, unit)
  {
    hide Notation, SpelledSize;
    var n := DigitRun(s);
    if n < |s| && s[n] == '.' {
      whole, fraction, unit := PartsWithPoint(s, n);
    } else {
      whole, unit := PartsWithoutPoint(s, n);
      fraction := "";
    }
  }

  /** A size has the notation of a decimal number exactly if it is a numeral, a
      point and digits or neither, and one of the four units; what is read of it is
      all its digits, how many stand behind the point, and its unit. */
  lemma SizeNotation(s: string, q: Quantity)
    ensures Notation(s) == Some(q) <==> exists whole, fraction, unit :: SpelledSize(s, q, whole, fraction, unit)
  {
    hide Notation;
    if Notation(s) == Some(q) {
      var whole, fraction, unit := SizeParts(s);
    }
    if whole, fraction, unit :| SpelledSize(s, q, whole, fraction, unit) {
      NotationOfSpelled(s, q, whole, fraction, unit);
    }
  }

  /** Its exact value is the product of number and unit if that is a positive whole
      number of bytes up to sixteen tebibytes. */
  lemma ExactSize(s: string, whole: string, fraction: string, unit: string, q: Quantity, v: nat)
    requires SpelledSize(s, q, whole, fraction, unit)
    ensures ExactQuantity(s) == Some(v) <==>
              && NatOf(whole + fraction) * SIZE_UNITS[unit] == v * Pow10(|fraction|)
              && 0 < v <= 17_592_186_044_416
  {
    hide Notation, NatOf, Pow10, WholeBytes;
    NotationOfSpelled(s, q, whole, fraction, unit);
    WholeBytesAre(Scaled(q), q.scale, v);
  }

  /** The largest unit that divides a size. */
  function CoarsestSize(bytes: nat): (u: string)
    requires bytes % KIB == 0
    ensures QuantityUnit(u) > 0 && bytes % QuantityUnit(u) == 0
    ensures forall unit ::
              QuantityUnit(unit) > 0 && bytes % QuantityUnit(unit) == 0 ==> QuantityUnit(unit) <= QuantityUnit(u)
    ensures QuantityText(bytes) == Some(DigitsOf(bytes / QuantityUnit(u)) + u)
  {
    if bytes % TIB == 0 then "TiB" else if bytes % GIB == 0 then "GiB" else if bytes % MIB == 0 then "MiB" else "KiB"
  }

  lemma UnitsDivide(n: nat, unit: string)
    requires QuantityUnit(unit) > 0
    ensures (n * QuantityUnit(unit)) % QuantityUnit(unit) == 0 && (n * QuantityUnit(unit)) % KIB == 0
  {
    var bytes := n * QuantityUnit(unit);
    ModOfMultiple(n, QuantityUnit(unit));
    if unit == "TiB" { CoarseUnit(bytes, TIB, GIB); }
    else if unit == "GiB" { CoarseUnit(bytes, GIB, MIB); }
    else if unit == "MiB" { CoarseUnit(bytes, MIB, KIB); }
  }

  lemma CoarsestSizeIsFewest(n: nat, unit: string, bytes: nat)
    requires QuantityUnit(unit) > 0 && bytes == n * QuantityUnit(unit) && bytes % KIB == 0
    ensures bytes / QuantityUnit(CoarsestSize(bytes)) <= n
  {
    hide QuantityText, QuantityUnit;
    var u := CoarsestSize(bytes);
    ModOfMultiple(n, QuantityUnit(unit));
    DivideExactly(bytes, QuantityUnit(u));
    CoarserIsFewer(n, QuantityUnit(unit), bytes / QuantityUnit(u), QuantityUnit(u));
  }

  /** No spelling of the same size in whole units has a smaller number than the
      canonical one. */
  lemma CanonicalSizeIsCoarsest(n: nat, unit: string)
    requires QuantityUnit(unit) > 0
    ensures exists k: nat, u :: k <= n && QuantityText(n * QuantityUnit(unit)) == Some(DigitsOf(k) + u)
                           && QuantityUnit(u) > 0 && k * QuantityUnit(u) == n * QuantityUnit(unit)
  {
    hide QuantityText, QuantityUnit;
    var bytes := n * QuantityUnit(unit);
    UnitsDivide(n, unit);
    CoarsestSizeIsFewest(n, unit, bytes);
    var u := CoarsestSize(bytes);
    DivideExactly(bytes, QuantityUnit(u));
  }
}
