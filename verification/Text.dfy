/** Strings as the source uses them: code-point order, decimal numerals. */
module Text {

  // ----- Code-point order -------------------------------------------------------

  predicate Less(a: string, b: string) {
    if b == [] then false
    else if a == [] then true
    else a[0] < b[0] || (a[0] == b[0] && Less(a[1..], b[1..]))
  }

  lemma {:induction false} LessIrreflexive(a: string)
    ensures !Less(a, a)
  {
    if a == [] {
    } else {
      LessIrreflexive(a[1..]);
    }
  }

  lemma {:induction false} LessTransitive(a: string, b: string, c: string)
    requires Less(a, b) && Less(b, c)
    ensures Less(a, c)
  {
    if a == [] || a[0] != b[0] || b[0] != c[0] {
    } else {
      LessTransitive(a[1..], b[1..], c[1..]);
    }
  }

  lemma {:induction false} LessTotal(a: string, b: string)
    ensures Less(a, b) || a == b || Less(b, a)
  {
    if a == [] || b == [] || a[0] != b[0] {
    } else {
      LessTotal(a[1..], b[1..]);
      assert a == [a[0]] + a[1..] && b == [b[0]] + b[1..];
    }
  }

  /** `a` parts from `b` at some place: there it ends or has the smaller character. */
  ghost predicate Precedes(a: string, b: string) {
    exists k: nat :: PartsAt(a, b, k)
  }

  ghost predicate PartsAt(a: string, b: string, k: nat) {
    k <= |a| && k < |b| && a[..k] == b[..k] && (k == |a| || a[k] < b[k])
  }

  lemma PartsLater(a: string, b: string, k: nat)
    requires a != [] && b != [] && a[0] == b[0]
    ensures PartsAt(a[1..], b[1..], k) <==> PartsAt(a, b, k + 1)
  {
    if k <= |a[1..]| && k < |b[1..]| {
      assert a[..k + 1] == [a[0]] + a[1..][..k] && b[..k + 1] == [b[0]] + b[1..][..k];
      assert a[..k + 1][1..] == a[1..][..k] && b[..k + 1][1..] == b[1..][..k];
    }
  }

  /** The order is that of the first place where two strings differ. */
  lemma {:induction false} LessIsLexicographic(a: string, b: string)
    ensures Less(a, b) <==> Precedes(a, b)
  {
    if a == [] || b == [] || a[0] != b[0] {
      assert b != [] && Less(a, b) ==> PartsAt(a, b, 0);
      if k: nat :| PartsAt(a, b, k) && k > 0 {
        assert a[..k][0] == b[..k][0];
      }
    } else {
      LessIsLexicographic(a[1..], b[1..]);
      if k: nat :| PartsAt(a[1..], b[1..], k) { PartsLater(a, b, k); }
      if k: nat :| PartsAt(a, b, k) {
        assert k > 0;
        PartsLater(a, b, k - 1);
      }
    }
  }

  ghost predicate Sorted(keys: seq<string>) {
    forall i, j :: 0 <= i < j < |keys| ==> Less(keys[i], keys[j])
  }

  ghost predicate IsLeast(keys: set<string>, least: string) {
    least in keys && forall k :: k in keys && k != least ==> Less(least, k)
  }

  lemma {:induction false} LeastExists(keys: set<string>) returns (least: string)
    requires keys != {}
    ensures IsLeast(keys, least)
    decreases |keys|
  {
    var k :| k in keys;
    var rest := keys - {k};
    if rest == {} {
      least := k;
      assert keys == {k};
    } else {
      var l := LeastExists(rest);
      LessTotal(k, l);
      if Less(k, l) {
        least := k;
        forall o | o in keys && o != k
          ensures Less(k, o)
        {
          if o != l { LessTransitive(k, l, o); }
        }
      } else {
        least := l;
        assert forall o :: o in keys && o != l ==> o == k || o in rest;
      }
    }
  }

  lemma LeastUnique(keys: set<string>, a: string, b: string)
    requires IsLeast(keys, a) && IsLeast(keys, b)
    ensures a == b
  {
    if a != b {
      LessTransitive(a, b, a);
      LessIrreflexive(a);
    }
  }

  ghost function Least(keys: set<string>): (least: string)
    requires keys != {}
    ensures IsLeast(keys, least)
  {
    assert exists least :: IsLeast(keys, least) by { var l := LeastExists(keys); }
    var least :| IsLeast(keys, least);
    least
  }

  /** `sorted(set)`. */
  ghost function SortedKeys(keys: set<string>): seq<string>
    decreases |keys|
  {
    if keys == {} then [] else [Least(keys)] + SortedKeys(keys - {Least(keys)})
  }

  lemma {:induction false} SortedKeysProperties(keys: set<string>)
    ensures Sorted(SortedKeys(keys))
    ensures forall k :: k in SortedKeys(keys) <==> k in keys
    ensures |SortedKeys(keys)| == |keys|
    decreases |keys|
  {
    hide Less;
    if keys == {} {
    } else {
      var least := Least(keys);
      var rest := keys - {least};
      SortedKeysProperties(rest);
      assert SortedKeys(keys) == [least] + SortedKeys(rest);
      assert forall k :: k in rest ==> Less(least, k);
    }
  }

  /** One comparison with each key. */
  method TakeLeast(keys: set<string>) returns (least: string)
    requires keys != {}
    ensures least in keys && least == Least(keys)
  {
    hide Less;
    least :| least in keys;
    var others := keys - {least};
    while others != {}
      invariant least in keys && others <= keys
      invariant forall k :: k in keys && k !in others && k != least ==> Less(least, k)
      decreases |others|
    {
      var k :| k in others;
      LessTotal(least, k);
      if Less(k, least) {
        forall o | o in keys && o !in others && o != least
          ensures Less(k, o)
        {
          LessTransitive(k, least, o);
        }
        least := k;
      }
      others := others - {k};
    }
    LeastUnique(keys, least, Least(keys));
  }

  /** The sort itself: repeatedly takes the least key out. */
  method Sort(keys: set<string>) returns (sorted: seq<string>)
    ensures sorted == SortedKeys(keys)
  {
    hide Less, IsLeast;
    sorted := [];
    var rest := keys;
    while rest != {}
      invariant sorted + SortedKeys(rest) == SortedKeys(keys)
      decreases |rest|
    {
      var least := TakeLeast(rest);
      sorted := sorted + [least];
      rest := rest - {least};
    }
  }

  // ----- Names of profiles and mounts --------------------------------------------

  predicate NameCharacter(c: char) { 'a' <= c <= 'z' || '0' <= c <= '9' }

  /** Up to 63 lower-case letters, digits and inner hyphens. */
  predicate IsName(s: string) {
    && 1 <= |s| <= 63 && NameCharacter(s[0]) && NameCharacter(s[|s| - 1])
    && forall i :: 0 <= i < |s| ==> NameCharacter(s[i]) || s[i] == '-'
  }

  predicate LowerOrDigit(c: char) { 97 <= c as int <= 122 || 48 <= c as int <= 57 }

  ghost predicate Named(s: string, a: char, mid: string, b: char) {
    && s == [a] + mid + [b] && LowerOrDigit(a) && LowerOrDigit(b)
    && |mid| <= 61 && forall i :: 0 <= i < |mid| ==> LowerOrDigit(mid[i]) || mid[i] == '-'
  }

  lemma NamedIsName(s: string, a: char, mid: string, b: char)
    requires Named(s, a, mid, b)
    ensures IsName(s)
  {
    forall i | 0 <= i < |s|
      ensures NameCharacter(s[i]) || s[i] == '-'
    {
      assert s[i] == if i == 0 then a else if i == |s| - 1 then b else mid[i - 1];
    }
  }

  /** A name is one lower-case letter or digit, or two with up to sixty-one of them
      and hyphens between. */
  lemma NamePattern(s: string)
    ensures IsName(s) <==>
              (|s| == 1 && LowerOrDigit(s[0])) || exists a, mid, b :: Named(s, a, mid, b)
  {
    if IsName(s) && |s| > 1 {
      var mid := s[1..|s| - 1];
      assert s == [s[0]] + mid + [s[|s| - 1]];
      assert forall i :: 0 <= i < |mid| ==> mid[i] == s[i + 1];
      assert Named(s, s[0], mid, s[|s| - 1]);
    }
    if a, mid, b :| Named(s, a, mid, b) {
      NamedIsName(s, a, mid, b);
    }
  }

  // ----- Decimal numerals ---------------------------------------------------------

  predicate IsDigit(c: char) { '0' <= c <= '9' }

  predicate AllDigits(s: string) { forall i :: 0 <= i < |s| ==> IsDigit(s[i]) }

  function DigitValue(c: char): nat
    requires IsDigit(c)
  {
    c as int - '0' as int
  }

  function DigitChar(d: nat): (c: char)
    requires d < 10
    ensures IsDigit(c) && DigitValue(c) == d
  {
    ('0' as int + d) as char
  }

  function NatOf(s: string): nat
    requires AllDigits(s)
  {
    if s == [] then 0 else 10 * NatOf(s[..|s| - 1]) + DigitValue(s[|s| - 1])
  }

  /** `str(n)` for a natural number. */
  function DigitsOf(n: nat): (s: string)
    ensures s != [] && AllDigits(s)
    ensures NatOf(s) == n
    ensures n > 0 ==> s[0] != '0'
  {
    if n < 10 then [DigitChar(n)]
    else
      var front := DigitsOf(n / 10);
      var s := front + [DigitChar(n % 10)];
      assert s[..|s| - 1] == front;
      s
  }

  lemma DigitsInjective(m: nat, n: nat)
    requires DigitsOf(m) == DigitsOf(n)
    ensures m == n
  {
    assert NatOf(DigitsOf(m)) == m && NatOf(DigitsOf(n)) == n;
  }

  lemma {:induction false} LeadingDigit(s: string)
    requires s != [] && AllDigits(s) && s[0] != '0'
    ensures NatOf(s) > 0
  {
    if |s| <= 1 {
    } else {
      LeadingDigit(s[..|s| - 1]);
    }
  }
}
