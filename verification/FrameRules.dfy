/** What the frame codec's arithmetic means: masking bit by bit, integers by their
    places, UTF-8 by the characters it spells, and the reason of every refusal. */
module FrameRules {
  import opened FrameCodec

  // ----- Exclusive or -----------------------------------------------------------------

  /** Bit `k` of a number, the lowest first. */
  predicate Bit(x: nat, k: nat) {
    if k == 0 then x % 2 == 1 else Bit(x / 2, k - 1)
  }

  /** A bit of the result is set exactly where the two numbers differ. */
  lemma {:induction false} XorBitByBit(x: nat, y: nat, width: nat, k: nat)
    requires k < width
    ensures Bit(XorBits(x, y, width), k) <==> Bit(x, k) != Bit(y, k)
  {
    assert XorBits(x, y, width) / 2 == XorBits(x / 2, y / 2, width - 1);
    if k == 0 {
    } else {
      XorBitByBit(x / 2, y / 2, width - 1, k - 1);
    }
  }

  /** Masking flips exactly the bits that are set in the mask byte of that
      position, in every byte of the payload. */
  lemma MaskFlipsBits(payload: Bytes, mask: Bytes, i: nat, k: nat)
    requires |mask| == 4 && i < |payload| && k < 8
    ensures Bit(Mask(payload, mask)[i], k) <==> Bit(payload[i], k) != Bit(mask[i % 4], k)
  {
    XorBitByBit(payload[i], mask[i % 4], 8, k);
  }

  /** A number is known by its bits, so the bits leave no choice. */
  lemma {:induction false} BitsDetermine(x: nat, y: nat, width: nat)
    requires x < Pow2(width) && y < Pow2(width)
    requires forall k: nat :: k < width ==> (Bit(x, k) <==> Bit(y, k))
    ensures x == y
  {
    if width == 0 {
    } else {
      assert Bit(x, 0) <==> Bit(y, 0);
      forall k: nat | k < width - 1
        ensures Bit(x / 2, k) <==> Bit(y / 2, k)
      {
        assert Bit(x, k + 1) <==> Bit(y, k + 1);
      }
      BitsDetermine(x / 2, y / 2, width - 1);
    }
  }

  // ----- Integers in network order --------------------------------------------------------

  /** Bytes put behind shift a number up by their places. */
  lemma {:induction false} BigEndianPlaces(high: Bytes, low: Bytes)
    ensures BigEndian(high + low) == BigEndian(high) * Pow256(|low|) + BigEndian(low)
  {
    if low == [] {
      assert high + low == high;
    } else {
      var front, last := low[..|low| - 1], low[|low| - 1];
      assert (high + low)[..|high + low| - 1] == high + front;
      BigEndianPlaces(high, front);
      Distribute(BigEndian(high), Pow256(|front|), BigEndian(front));
    }
  }

  lemma Distribute(a: nat, p: nat, b: nat)
    ensures 256 * (a * p + b) == a * (256 * p) + 256 * b
  {
  }

  lemma OneByte(b: Octet)
    ensures BigEndian([b]) == b
  {
    assert [b][..0] == [];
  }

  // ----- UTF-8 -------------------------------------------------------------------------------

  /** A Unicode scalar value: no surrogate, nothing above U+10FFFF. */
  predicate Scalar(c: nat) { c < 0xD800 || 0xE000 <= c < 0x11_0000 }

  /** The encoding of one character (section 3 of RFC 3629). */
  function CharacterBytes(c: nat): (b: Bytes)
    requires Scalar(c)
    ensures 1 <= |b| <= 4
  {
    if c < 0x80 then [c]
    else if c < 0x800 then [0xC0 + c / 64, 0x80 + c % 64]
    else if c < 0x1_0000 then [0xE0 + c / 4096, 0x80 + c / 64 % 64, 0x80 + c % 64]
    else [0xF0 + c / 262_144, 0x80 + c / 4096 % 64, 0x80 + c / 64 % 64, 0x80 + c % 64]
  }

  predicate AllScalars(text: seq<nat>) { forall i :: 0 <= i < |text| ==> Scalar(text[i]) }

  function TextBytes(text: seq<nat>): Bytes
    requires AllScalars(text)
  {
    if text == [] then [] else CharacterBytes(text[0]) + TextBytes(text[1..])
  }

  ghost predicate Spells(s: Bytes, text: seq<nat>) { AllScalars(text) && TextBytes(text) == s }

  lemma ShortCharacter(c: nat, rest: Bytes)
    requires c < 0x800
    ensures ValidUtf8(CharacterBytes(c) + rest) <==> ValidUtf8(rest)
  {
    var b := CharacterBytes(c);
    assert (b + rest)[|b|..] == rest;
  }

  lemma MiddleCharacter(c: nat, rest: Bytes)
    requires Scalar(c) && 0x800 <= c < 0x1_0000
    ensures ValidUtf8(CharacterBytes(c) + rest) <==> ValidUtf8(rest)
  {
    var b := CharacterBytes(c);
    assert (b + rest)[|b|..] == rest;
  }

  lemma LongCharacter(c: nat, rest: Bytes)
    requires Scalar(c) && c >= 0x1_0000
    ensures ValidUtf8(CharacterBytes(c) + rest) <==> ValidUtf8(rest)
  {
    var b := CharacterBytes(c);
    assert (b + rest)[|b|..] == rest;
    assert c / 4096 == 64 * (c / 262_144) + c / 4096 % 64;
  }

  lemma {:induction false} SpelledIsValid(text: seq<nat>)
    requires AllScalars(text)
    ensures ValidUtf8(TextBytes(text))
  {
    if text == [] {
    } else {
      hide ValidUtf8, CharacterBytes;
      SpelledIsValid(text[1..]);
      var rest := TextBytes(text[1..]);
      if text[0] < 0x800 { ShortCharacter(text[0], rest); }
      else if text[0] < 0x1_0000 { MiddleCharacter(text[0], rest); }
      else { LongCharacter(text[0], rest); }
    }
  }

  ghost predicate StartsWith(s: Bytes, c: nat) {
    Scalar(c) && CharacterBytes(c) <= s && ValidUtf8(s[|CharacterBytes(c)|..])
  }

  lemma FirstOfTwo(s: Bytes) returns (c: nat)
    requires ValidUtf8(s) && s != [] && 0x80 <= s[0] < 0xE0
    ensures StartsWith(s, c)
  {
    var lead: nat, x: nat := s[0], s[1];
    c := (lead - 0xC0) * 64 + (x - 0x80);
    assert c / 64 == lead - 0xC0 && c % 64 == x - 0x80;
  }

  lemma FirstOfThree(s: Bytes) returns (c: nat)
    requires ValidUtf8(s) && s != [] && 0xE0 <= s[0] < 0xF0
    ensures StartsWith(s, c)
  {
    var lead: nat, x: nat, y: nat := s[0], s[1], s[2];
    c := ((lead - 0xE0) * 64 + (x - 0x80)) * 64 + (y - 0x80);
    assert c / 64 == (lead - 0xE0) * 64 + (x - 0x80) && c % 64 == y - 0x80;
    assert c / 4096 == lead - 0xE0 && c / 64 % 64 == x - 0x80;
  }

  lemma FirstOfFour(s: Bytes) returns (c: nat)
    requires ValidUtf8(s) && s != [] && s[0] >= 0xF0
    ensures StartsWith(s, c)
  {
    var lead: nat, x: nat, y: nat, z: nat := s[0], s[1], s[2], s[3];
    c := (((lead - 0xF0) * 64 + (x - 0x80)) * 64 + (y - 0x80)) * 64 + (z - 0x80);
    assert c / 64 == ((lead - 0xF0) * 64 + (x - 0x80)) * 64 + (y - 0x80) && c % 64 == z - 0x80;
    assert c / 4096 == (lead - 0xF0) * 64 + (x - 0x80) && c / 64 % 64 == y - 0x80;
    assert c / 262_144 == lead - 0xF0 && c / 4096 % 64 == x - 0x80;
  }

  /** The first character of a valid string. */
  lemma FirstCharacter(s: Bytes) returns (c: nat)
    requires ValidUtf8(s) && s != []
    ensures StartsWith(s, c)
  {
    if s[0] < 0x80 { c := s[0]; }
    else {
      hide ValidUtf8;
      if s[0] < 0xE0 { c := FirstOfTwo(s); }
      else if s[0] < 0xF0 { c := FirstOfThree(s); }
      else { c := FirstOfFour(s); }
    }
  }

  lemma {:induction false} ValidIsSpelled(s: Bytes) returns (text: seq<nat>)
    requires ValidUtf8(s)
    ensures Spells(s, text)
    decreases |s|
  {
    hide ValidUtf8, CharacterBytes;
    if s == [] {
      text := [];
    } else {
      var c := FirstCharacter(s);
      var rest := ValidIsSpelled(s[|CharacterBytes(c)|..]);
      text := [c] + rest;
      assert text[1..] == rest;
    }
  }

  /** The grammar accepts exactly the byte strings that spell some text. */
  lemma ValidExactlyWhenSpelled(s: Bytes)
    ensures ValidUtf8(s) <==> exists text :: Spells(s, text)
  {
    if ValidUtf8(s) {
      var text := ValidIsSpelled(s);
    } else if text :| Spells(s, text) {
      SpelledIsValid(text);
    }
  }

  // ----- Why a frame is refused -----------------------------------------------------------------

  /** Text, binary, close, ping and pong. */
  const OPCODES: set<nat> := {0x1, 0x2, 0x8, 0x9, 0xA}

  /** The close codes a peer may send (section 7.4 of RFC 6455). */
  predicate CloseCodeAllowed(code: int) {
    code in {1000, 1001, 1002, 1003, 1007, 1008, 1009, 1010, 1011} || 3000 <= code < 5000
  }

  /** The first two bytes alone decide on the flags and the opcode. */
  lemma HeaderRefusals(s: Bytes, maximum: nat)
    requires |s| >= 2
    ensures var d := Decode(s, maximum);
            var plain := 0x80 <= s[0] < 0x90;
            var masked := s[1] >= 0x80;
            && (d == Rejected(1002, "fragmented or reserved frame") <==> !plain)
            && (d == Rejected(1002, "client frame must be masked") <==> plain && !masked)
            && (d == Rejected(1002, "unsupported opcode") <==> plain && masked && s[0] - 0x80 !in OPCODES)
  {
    hide BigEndian, Mask, ValidUtf8, LegalCloseCode, Pow2;
  }

  /** Behind a good header: a control frame over 125 bytes and a payload over the
      limit are refused before anything more is read, then the frame is incomplete
      or its payload decides. */
  lemma BodyRefusals(s: Bytes, maximum: nat, opcode: Octet, length: nat, at: nat)
    requires at <= |s|
    ensures var d := DecodeBody(s, maximum, opcode, length, at);
            var control := opcode >= 0x8 && length > 125;
            && (d == Rejected(1002, "oversized control frame") <==> control)
            && (d == Rejected(1009, "frame too large") <==> !control && length > maximum)
            && (d == Truncated <==> !control && length <= maximum && |s| < at + 4 + length)
            && (!control && length <= maximum && |s| >= at + 4 + length ==>
                  d == Verdict(opcode, Mask(s[at + 4..at + 4 + length], s[at..at + 4]), s[at..at + 4],
                               at + 4 + length))
  {
    hide Mask, ValidUtf8, LegalCloseCode, BigEndian;
    CloseCodes();
    if at + 4 + length <= |s| {
      PayloadVerdict(opcode, Mask(s[at + 4..at + 4 + length], s[at..at + 4]));
    }
  }

  lemma CloseCodes()
    ensures forall code: int :: LegalCloseCode(code) <==> CloseCodeAllowed(code)
  {
  }

  function CloseCode(payload: Bytes): nat
    requires |payload| >= 2
  {
    var high: nat, low: nat := payload[0], payload[1];
    256 * high + low
  }

  /** Only a close frame is looked into: its payload is empty, or a code that may
      be sent followed by valid UTF-8. */
  function Verdict(opcode: Octet, payload: Bytes, mask: Bytes, consumed: nat): Decoded {
    if opcode != 0x8 || payload == [] then Accepted(opcode, payload, mask, consumed)
    else if |payload| == 1 then Rejected(1002, "invalid close payload")
    else if !CloseCodeAllowed(CloseCode(payload)) then Rejected(1002, "invalid close code")
    else if !ValidUtf8(payload[2..]) then Rejected(1007, "invalid close reason")
    else Accepted(opcode, payload, mask, consumed)
  }

  lemma PayloadVerdict(opcode: Octet, payload: Bytes)
    ensures |payload| >= 2 ==> BigEndian(payload[..2]) == CloseCode(payload)
  {
    if |payload| >= 2 {
      var code := payload[..2];
      assert code[..1] == [payload[0]];
      OneByte(payload[0]);
    }
  }
}
