/** The RFC 6455 client frame codec of the event WebSocket: the reader the
    Controller runs on a socket and the encoder its clients use, with the proof
    that they are exact inverses of each other on every legal frame. */
module FrameCodec {
  /** A byte. Bit tests on it are written arithmetically: `b & 0x80` is
      `b >= 0x80`, `b & 0x70` is `b / 0x10 % 8`, `b & 0x0F` is `b % 0x10`,
      `b & 0x7F` is `b % 0x80`, and `0x80 | b` is `0x80 + b` when b < 0x80. */
  type Octet = n: nat | n < 256

  type Bytes = seq<Octet>

  const TWO_63: nat := 0x8000_0000_0000_0000

  /** What one call of the reader can produce: `Frame` is a returned frame, the
      other two are the exceptions it raises. */
  datatype ReadResult =
    | Frame(opcode: Octet, payload: Bytes)
    | PeerClosed
    | ProtocolError(code: int, reason: string)

  /** A decoded frame together with the mask it carried and the number of
      bytes it occupied. */
  datatype Decoded =
    | Accepted(opcode: Octet, payload: Bytes, mask: Bytes, consumed: nat)
    | Truncated
    | Rejected(code: int, reason: string)

  // ----- Big-endian integers -------------------------------------------------

  function BigEndian(b: Bytes): nat {
    if b == [] then 0 else 256 * BigEndian(b[..|b| - 1]) + b[|b| - 1]
  }

  function Pow256(k: nat): nat {
    if k == 0 then 1 else 256 * Pow256(k - 1)
  }

  function PackBE(n: nat, width: nat): (b: Bytes)
    requires n < Pow256(width)
    ensures |b| == width
    ensures BigEndian(b) == n
  {
    if width == 0 then []
    else
      var high := PackBE(n / 256, width - 1);
      var b := high + [n % 256];
      assert b[..|b| - 1] == high;
      b
  }

  lemma PackStep(x: nat, v: nat, width: nat)
    requires x < Pow256(width) && v < 256
    ensures 256 * x + v < Pow256(width + 1)
    ensures PackBE(256 * x + v, width + 1) == PackBE(x, width) + [v]
  {
    assert (256 * x + v) / 256 == x && (256 * x + v) % 256 == v;
  }

  lemma {:induction false} PackOfBigEndian(b: Bytes)
    ensures BigEndian(b) < Pow256(|b|)
    ensures PackBE(BigEndian(b), |b|) == b
  {
    if b == [] {
    } else {
      var front := b[..|b| - 1];
      PackOfBigEndian(front);
      PackStep(BigEndian(front), b[|b| - 1], |front|);
      assert front + [b[|b| - 1]] == b;
    }
  }

  lemma Pow256Values()
    ensures Pow256(2) == 0x1_0000
    ensures Pow256(7) == 0x100_0000_0000_0000
    ensures Pow256(8) == 0x1_0000_0000_0000_0000
  {
    assert Pow256(3) == 0x100_0000 && Pow256(4) == 0x1_0000_0000;
    assert Pow256(5) == 0x100_0000_0000 && Pow256(6) == 0x1_0000_0000_0000;
    assert Pow256(7) == 0x100_0000_0000_0000;
  }

  // ----- Masking ---------------------------------------------------------------

  function Pow2(k: nat): (p: nat)
    ensures p >= 1
  {
    if k == 0 then 1 else 2 * Pow2(k - 1)
  }

  /** Bitwise exclusive or of the low `width` bits. */
  function XorBits(x: nat, y: nat, width: nat): (z: nat)
    ensures z < Pow2(width)
  {
    if width == 0 then 0
    else 2 * XorBits(x / 2, y / 2, width - 1) + (if x % 2 == y % 2 then 0 else 1)
  }

  function Xor(x: Octet, y: Octet): Octet {
    Pow2Eight();
    XorBits(x, y, 8)
  }

  lemma Pow2Eight()
    ensures Pow2(8) == 256
  {
    assert Pow2(4) == 16;
  }

  lemma {:induction false} XorBitsTwice(x: nat, y: nat, width: nat)
    requires x < Pow2(width)
    ensures XorBits(XorBits(x, y, width), y, width) == x
  {
    if width == 0 {
    } else {
      var z := XorBits(x, y, width);
      assert z / 2 == XorBits(x / 2, y / 2, width - 1);
      XorBitsTwice(x / 2, y / 2, width - 1);
    }
  }

  lemma XorTwice(x: Octet, y: Octet)
    ensures Xor(Xor(x, y), y) == x
  {
    Pow2Eight();
    XorBitsTwice(x, y, 8);
  }

  /** XOR with the repeating four-byte mask, starting at mask position `offset`. */
  function Mask(payload: Bytes, mask: Bytes): (masked: Bytes)
    requires |mask| == 4
    ensures |masked| == |payload|
    ensures forall i :: 0 <= i < |payload| ==> masked[i] == Xor(payload[i], mask[i % 4])
  {
    seq(|payload|, i requires 0 <= i < |payload| => Xor(payload[i], mask[i % 4]))
  }

  lemma MaskTwice(payload: Bytes, mask: Bytes)
    requires |mask| == 4
    ensures Mask(Mask(payload, mask), mask) == payload
  {
    forall i | 0 <= i < |payload|
      ensures Mask(Mask(payload, mask), mask)[i] == payload[i]
    {
      XorTwice(payload[i], mask[i % 4]);
    }
  }

  // ----- UTF-8 (the close reason must decode strictly) --------------------------

  predicate Continuation(b: Octet) { 0x80 <= b < 0xC0 }

  /** The strict UTF-8 grammar: no overlong forms, no surrogates, nothing above
      U+10FFFF. */
  predicate ValidUtf8(s: Bytes)
    decreases |s|
  {
    if s == [] then true
    else if s[0] < 0x80 then ValidUtf8(s[1..])
    else if 0xC2 <= s[0] <= 0xDF then
      |s| >= 2 && Continuation(s[1]) && ValidUtf8(s[2..])
    else if 0xE0 <= s[0] <= 0xEF then
      && |s| >= 3 && Continuation(s[1]) && Continuation(s[2])
      && (s[0] == 0xE0 ==> s[1] >= 0xA0) && (s[0] == 0xED ==> s[1] < 0xA0)
      && ValidUtf8(s[3..])
    else if 0xF0 <= s[0] <= 0xF4 then
      && |s| >= 4 && Continuation(s[1]) && Continuation(s[2]) && Continuation(s[3])
      && (s[0] == 0xF0 ==> s[1] >= 0x90) && (s[0] == 0xF4 ==> s[1] < 0x90)
      && ValidUtf8(s[4..])
    else false
  }

  // ----- Frame rules ---------------------------------------------------------------

  predicate KnownOpcode(opcode: Octet) {
    opcode == 0x1 || opcode == 0x2 || opcode == 0x8 || opcode == 0x9 || opcode == 0xA
  }

  predicate LegalCloseCode(code: int) {
    || 1000 <= code <= 1003
    || 1007 <= code <= 1011
    || 3000 <= code <= 4999
  }

  /** The verdict on a complete payload, in the order the reader applies it. */
  function PayloadFault(opcode: Octet, payload: Bytes): (fault: (int, string)) {
    if opcode != 0x8 || payload == [] then (0, "")
    else if |payload| == 1 then (1002, "invalid close payload")
    else if !LegalCloseCode(BigEndian(payload[..2])) then (1002, "invalid close code")
    else if !ValidUtf8(payload[2..]) then (1007, "invalid close reason")
    else (0, "")
  }

  /** The frames RFC 6455 lets a client send to a reader that takes at most
      `maximum` payload bytes (sections 5.2, 5.5, 5.5.1 and 7.4). */
  ghost predicate LegalFrame(opcode: Octet, payload: Bytes, maximum: nat) {
    && KnownOpcode(opcode)
    && |payload| <= maximum
    && |payload| < TWO_63
    && (opcode >= 0x8 ==> |payload| <= 125)
    && (opcode == 0x8 ==>
          || payload == []
          || (|payload| >= 2 && LegalCloseCode(BigEndian(payload[..2])) && ValidUtf8(payload[2..])))
  }

  // ----- The encoder ------------------------------------------------------------

  /** Header bytes after the first: the masked flag with the shortest length
      form that fits. */
  function LengthField(length: nat): (field: Bytes)
    requires length < TWO_63
    ensures |field| == if length < 126 then 1 else if length <= 0xFFFF then 3 else 9
  {
    Pow256Values();
    if length < 126 then [0x80 + length]
    else if length <= 0xFFFF then [0x80 + 126] + PackBE(length, 2)
    else [0x80 + 127] + PackBE(length, 8)
  }

  function Header(opcode: Octet, length: nat): (h: Bytes)
    requires opcode < 0x80 && length < TWO_63
    ensures |h| == if length < 126 then 2 else if length <= 0xFFFF then 4 else 10
  {
    [0x80 + opcode] + LengthField(length)
  }

  function EncodeClientFrame(opcode: Octet, payload: Bytes, mask: Bytes): Bytes
    requires opcode < 0x80 && |mask| == 4 && |payload| < TWO_63
  {
    Header(opcode, |payload|) + (mask + Mask(payload, mask))
  }

  // ----- What the reader computes -------------------------------------------------

  /** The reader as a function of all bytes still to come. */
  function Decode(s: Bytes, maximum: nat): Decoded {
    if |s| < 2 then Truncated
    else
      var opcode := s[0] % 0x10;
      var length7 := s[1] % 0x80;
      if s[0] / 0x10 % 8 != 0 || s[0] < 0x80 then Rejected(1002, "fragmented or reserved frame")
      else if s[1] < 0x80 then Rejected(1002, "client frame must be masked")
      else if !KnownOpcode(opcode) then Rejected(1002, "unsupported opcode")
      else if length7 == 126 then
        if |s| < 4 then Truncated
        else if BigEndian(s[2..4]) < 126 then Rejected(1002, "non-canonical frame length")
        else DecodeBody(s, maximum, opcode, BigEndian(s[2..4]), 4)
      else if length7 == 127 then
        if |s| < 10 then Truncated
        else if s[2] >= 0x80 then Rejected(1002, "invalid frame length")
        else if BigEndian(s[2..10]) < 65_536 then Rejected(1002, "non-canonical frame length")
        else DecodeBody(s, maximum, opcode, BigEndian(s[2..10]), 10)
      else DecodeBody(s, maximum, opcode, length7, 2)
  }

  /** The part of the reader after the length is known; `at` is the number of
      header bytes already read. */
  function DecodeBody(s: Bytes, maximum: nat, opcode: Octet, length: nat, at: nat): Decoded
    requires at <= |s|
  {
    if opcode >= 0x8 && length > 125 then Rejected(1002, "oversized control frame")
    else if length > maximum then Rejected(1009, "frame too large")
    else if |s| < at + 4 + length then Truncated
    else
      var mask := s[at..at + 4];
      var payload := Mask(s[at + 4..at + 4 + length], mask);
      var fault := PayloadFault(opcode, payload);
      if fault.0 != 0 then Rejected(fault.0, fault.1)
      else Accepted(opcode, payload, mask, at + 4 + length)
  }

  // ----- The imperative reader ------------------------------------------------------

  /** A byte stream whose `Read` may return fewer bytes than asked for, and
      nothing only at the end of the stream. */
  class ByteStream {
    var pending: Bytes

    constructor (bytes: Bytes)
      ensures pending == bytes
    {
      pending := bytes;
    }

    /** `limit` stands for whatever the transport has buffered right now. */
    method Read(count: nat, limit: nat) returns (chunk: Bytes)
      modifies this
      ensures |chunk| <= count && old(pending) == chunk + pending
      ensures chunk == [] <==> count == 0 || old(pending) == []
    {
      var available := if limit == 0 then 1 else limit;
      var size := if count < available then count else available;
      if |pending| < size { size := |pending|; }
      chunk := pending[..size];
      pending := pending[size..];
      assert chunk + pending == old(pending);
    }
  }

  /** Collects exactly `count` bytes, however the transport fragments them. */
  method ReadExact(stream: ByteStream, count: nat) returns (complete: bool, data: Bytes)
    modifies stream
    ensures complete <==> |old(stream.pending)| >= count
    ensures complete ==> data == old(stream.pending)[..count] && stream.pending == old(stream.pending)[count..]
  {
    data := [];
    var remaining := count;
    while remaining != 0
      invariant 0 <= remaining && |data| + remaining == count
      invariant data + stream.pending == old(stream.pending)
      decreases remaining
    {
      var limit: nat :| true;
      var chunk := stream.Read(remaining, limit);
      if chunk == [] {
        assert old(stream.pending) == data;
        return false, data;
      }
      data := data + chunk;
      remaining := remaining - |chunk|;
    }
    complete := true;
    assert old(stream.pending)[..count] == data;
  }

  /** The frame reader, byte for byte, with the payload unmasked in place. */
  method ReadClientFrame(stream: ByteStream, maximum: nat) returns (result: ReadResult)
    modifies stream
    ensures match Decode(old(stream.pending), maximum)
            case Accepted(opcode, payload, _, consumed) =>
              && result == Frame(opcode, payload)
              && consumed <= |old(stream.pending)|
              && stream.pending == old(stream.pending)[consumed..]
            case Truncated => result == PeerClosed
            case Rejected(code, reason) => result == ProtocolError(code, reason)
  {
    ghost var s := stream.pending;
    var complete, header := ReadExact(stream, 2);
    if !complete { return PeerClosed; }
    var opcode := header[0] % 0x10;
    var payloadLength := header[1] % 0x80;
    if header[0] / 0x10 % 8 != 0 || header[0] < 0x80 {
      return ProtocolError(1002, "fragmented or reserved frame");
    }
    if header[1] < 0x80 { return ProtocolError(1002, "client frame must be masked"); }
    if !KnownOpcode(opcode) { return ProtocolError(1002, "unsupported opcode"); }
    ghost var at := 2;
    if payloadLength == 126 {
      var encoded;
      complete, encoded := ReadExact(stream, 2);
      if !complete { return PeerClosed; }
      assert encoded == s[2..4];
      payloadLength := BigEndian(encoded);
      if payloadLength < 126 { return ProtocolError(1002, "non-canonical frame length"); }
      at := 4;
    } else if payloadLength == 127 {
      var encoded;
      complete, encoded := ReadExact(stream, 8);
      if !complete { return PeerClosed; }
      assert encoded == s[2..10];
      if encoded[0] >= 0x80 { return ProtocolError(1002, "invalid frame length"); }
      payloadLength := BigEndian(encoded);
      if payloadLength < 65_536 { return ProtocolError(1002, "non-canonical frame length"); }
      at := 10;
    }
    assert stream.pending == s[at..];
    assert Decode(s, maximum) == DecodeBody(s, maximum, opcode, payloadLength, at);
    result := ReadBody(stream, maximum, opcode, payloadLength, s, at);
  }

  /** Mask and payload: the second half of the reader. */
  method ReadBody(stream: ByteStream, maximum: nat, opcode: Octet, payloadLength: nat, ghost s: Bytes, ghost at: nat)
    returns (result: ReadResult)
    requires at <= |s| && stream.pending == s[at..]
    modifies stream
    ensures match DecodeBody(s, maximum, opcode, payloadLength, at)
            case Accepted(op, payload, _, consumed) =>
              result == Frame(op, payload) && consumed <= |s| && stream.pending == s[consumed..]
            case Truncated => result == PeerClosed
            case Rejected(code, reason) => result == ProtocolError(code, reason)
  {
    hide Mask, BigEndian, LegalCloseCode, ValidUtf8;
    if opcode >= 0x8 && payloadLength > 125 { return ProtocolError(1002, "oversized control frame"); }
    if payloadLength > maximum { return ProtocolError(1009, "frame too large"); }
    var complete, mask := ReadExact(stream, 4);
    if !complete { return PeerClosed; }
    assert mask == s[at..at + 4];
    var masked;
    complete, masked := ReadExact(stream, payloadLength);
    if !complete { return PeerClosed; }
    assert masked == s[at + 4..at + 4 + payloadLength];
    var buffer := new Octet[payloadLength](i requires 0 <= i < payloadLength => masked[i]);
    UnmaskInPlace(buffer, mask);
    var payload := buffer[..];
    assert payload == Mask(masked, mask);
    if opcode == 0x8 {
      if payloadLength == 1 { return ProtocolError(1002, "invalid close payload"); }
      if payloadLength >= 2 {
        var closeCode := BigEndian(payload[..2]);
        if !LegalCloseCode(closeCode) { return ProtocolError(1002, "invalid close code"); }
        if !ValidUtf8(payload[2..]) { return ProtocolError(1007, "invalid close reason"); }
      }
    }
    result := Frame(opcode, payload);
  }

  method UnmaskInPlace(buffer: array<Octet>, mask: Bytes)
    requires |mask| == 4
    modifies buffer
    ensures buffer[..] == Mask(old(buffer[..]), mask)
  {
    for index := 0 to buffer.Length
      invariant forall i :: 0 <= i < index ==> buffer[i] == Xor(old(buffer[i]), mask[i % 4])
      invariant forall i :: index <= i < buffer.Length ==> buffer[i] == old(buffer[i])
    {
      buffer[index] := Xor(buffer[index], mask[index % 4]);
    }
  }

  // ----- Facts about the header -------------------------------------------------

  lemma {:induction false} TopByteWeight(b: Bytes)
    requires b != []
    ensures BigEndian(b) == b[0] * Pow256(|b| - 1) + BigEndian(b[1..])
  {
    if |b| > 1 {
      var front := b[..|b| - 1];
      TopByteWeight(front);
      assert front[1..] == b[1..][..|b| - 2];
      Scale(b[0], Pow256(|b| - 2));
    } else {
      assert b[..0] == b[1..] == [];
    }
  }

  lemma Scale(v: nat, p: nat)
    ensures 256 * (v * p) == v * (256 * p)
  {
  }

  /** The sign-bit test on an eight-byte length is exactly the 2^63 bound. */
  lemma SignBit(b: Bytes)
    requires |b| == 8
    ensures b[0] < 0x80 <==> BigEndian(b) < TWO_63
  {
    TopByteWeight(b);
    PackOfBigEndian(b[1..]);
    Pow256Values();
  }

  // ----- Header round trips ---------------------------------------------------------

  /** The first byte of a frame with a known opcode passes the flag tests. */
  lemma FirstByte(opcode: Octet)
    requires KnownOpcode(opcode)
    ensures (0x80 + opcode) % 0x10 == opcode && (0x80 + opcode) / 0x10 % 8 == 0
  {
  }

  lemma DecodeOfShort(s: Bytes, opcode: Octet, length: nat, maximum: nat)
    requires KnownOpcode(opcode) && length < 126
    requires |s| >= 2 && s[0] == 0x80 + opcode && s[1] == 0x80 + length
    ensures Decode(s, maximum) == DecodeBody(s, maximum, opcode, length, 2)
  {
    hide DecodeBody, BigEndian;
    FirstByte(opcode);
  }

  lemma DecodeOfMedium(s: Bytes, opcode: Octet, length: nat, maximum: nat)
    requires KnownOpcode(opcode) && length >= 126
    requires |s| >= 4 && s[0] == 0x80 + opcode && s[1] == 0x80 + 126 && BigEndian(s[2..4]) == length
    ensures Decode(s, maximum) == DecodeBody(s, maximum, opcode, length, 4)
  {
    hide DecodeBody, BigEndian;
    FirstByte(opcode);
  }

  lemma DecodeOfLong(s: Bytes, opcode: Octet, length: nat, maximum: nat)
    requires KnownOpcode(opcode) && 65_536 <= length < TWO_63
    requires |s| >= 10 && s[0] == 0x80 + opcode && s[1] == 0x80 + 127 && s[2] < 0x80 && BigEndian(s[2..10]) == length
    ensures Decode(s, maximum) == DecodeBody(s, maximum, opcode, length, 10)
  {
    hide DecodeBody, BigEndian;
    FirstByte(opcode);
  }

  lemma DecodeOfHeader(opcode: Octet, length: nat, rest: Bytes, maximum: nat)
    requires KnownOpcode(opcode) && length < TWO_63
    ensures var h := Header(opcode, length);
            Decode(h + rest, maximum) == DecodeBody(h + rest, maximum, opcode, length, |h|)
  {
    var h := Header(opcode, length);
    var s := h + rest;
    Pow256Values();
    if length < 126 {
      DecodeOfShort(s, opcode, length, maximum);
    } else if length <= 0xFFFF {
      assert s[2..4] == PackBE(length, 2);
      DecodeOfMedium(s, opcode, length, maximum);
    } else {
      assert s[2..10] == PackBE(length, 8);
      SignBit(s[2..10]);
      DecodeOfLong(s, opcode, length, maximum);
    }
  }

  lemma LongHeader(s: Bytes, length: nat)
    requires |s| >= 10 && s[1] == 0x80 + 127 && s[2] < 0x80
    requires BigEndian(s[2..10]) == length && length >= 65_536
    ensures length < TWO_63 && s[..10] == [s[0]] + LengthField(length)
  {
    Pow256Values();
    PackOfBigEndian(s[2..10]);
    assert s[2..10][0] == s[2];
    SignBit(s[2..10]);
    assert s[..10] == [s[0]] + ([s[1]] + s[2..10]);
  }

  lemma MediumHeader(s: Bytes, length: nat)
    requires |s| >= 4 && s[1] == 0x80 + 126
    requires BigEndian(s[2..4]) == length && length >= 126
    ensures length <= 0xFFFF && s[..4] == [s[0]] + LengthField(length)
  {
    Pow256Values();
    PackOfBigEndian(s[2..4]);
    assert s[..4] == [s[0]] + ([s[1]] + s[2..4]);
  }

  /** The bytes begin with the header the encoder writes for some known opcode
      and some length a frame can have. */
  ghost predicate BeginsWith(s: Bytes, opcode: Octet, length: nat) {
    KnownOpcode(opcode) && length < TWO_63 && Header(opcode, length) <= s
  }

  ghost predicate HasHeader(s: Bytes) {
    exists opcode: Octet, length: nat :: BeginsWith(s, opcode, length)
  }

  lemma HeaderIs(s: Bytes, opcode: Octet, length: nat)
    requires s != [] && s[0] == 0x80 + opcode && KnownOpcode(opcode) && length < TWO_63
    requires |LengthField(length)| < |s| && s[..1 + |LengthField(length)|] == [s[0]] + LengthField(length)
    ensures BeginsWith(s, opcode, length)
  {
  }

  lemma ShortHeader(s: Bytes, opcode: Octet, length: nat)
    requires |s| >= 2 && s[0] == 0x80 + opcode && s[1] == 0x80 + length && KnownOpcode(opcode) && length < 126
    ensures BeginsWith(s, opcode, length)
  {
    assert Header(opcode, length) == s[..2];
  }

  /** The header the reader has read when its guards on the first bytes pass. */
  lemma HeaderRead(s: Bytes, maximum: nat) returns (opcode: Octet, length: nat)
    ensures || BeginsWith(s, opcode, length)
            || Decode(s, maximum).Truncated?
            || (Decode(s, maximum).Rejected? && Decode(s, maximum).code == 1002)
    ensures !BeginsWith(s, opcode, length) ==> forall m: nat :: Decode(s, m) == Decode(s, maximum)
  {
    hide BigEndian, DecodeBody, Header, PackBE;
    opcode, length := 0, 0;
    if |s| >= 2 && 0x80 <= s[0] < 0x90 && s[1] >= 0x80 && KnownOpcode(s[0] % 0x10) {
      opcode, length := s[0] % 0x10, s[1] % 0x80;
      if length == 126 && |s| >= 4 && BigEndian(s[2..4]) >= 126 {
        length := BigEndian(s[2..4]);
        MediumHeader(s, length);
        HeaderIs(s, opcode, length);
      } else if length == 127 && |s| >= 10 && s[2] < 0x80 && BigEndian(s[2..10]) >= 65_536 {
        length := BigEndian(s[2..10]);
        LongHeader(s, length);
        HeaderIs(s, opcode, length);
      } else if length < 126 {
        ShortHeader(s, opcode, length);
      }
    }
  }

  /** The reader gets past the length exactly on the encoder's headers, whatever
      becomes of the frame afterwards. Every other spelling of a length, like
      every other bad header, is refused with 1002 or still incomplete, and then
      the limit on the payload plays no part. */
  lemma HeaderOfDecode(s: Bytes, maximum: nat) returns (opcode: Octet, length: nat)
    ensures HasHeader(s) ==>
              && BeginsWith(s, opcode, length)
              && Decode(s, maximum) == DecodeBody(s, maximum, opcode, length, |Header(opcode, length)|)
    ensures !HasHeader(s) ==>
              && (Decode(s, maximum).Truncated? || (Decode(s, maximum).Rejected? && Decode(s, maximum).code == 1002))
              && forall m: nat :: Decode(s, m) == Decode(s, maximum)
  {
    hide Decode, DecodeBody, Header;
    opcode, length := HeaderRead(s, maximum);
    if HasHeader(s) {
      opcode, length :| BeginsWith(s, opcode, length);
      var h := Header(opcode, length);
      assert s == h + s[|h|..];
      DecodeOfHeader(opcode, length, s[|h|..], maximum);
    }
  }

  lemma FaultFree(opcode: Octet, payload: Bytes, maximum: nat)
    requires LegalFrame(opcode, payload, maximum)
    ensures PayloadFault(opcode, payload).0 == 0
  {
  }

  lemma DecodeBodyOfMasked(s: Bytes, opcode: Octet, payload: Bytes, mask: Bytes, at: nat, maximum: nat)
    requires LegalFrame(opcode, payload, maximum) && |mask| == 4
    requires |s| >= at + 4 + |payload|
    requires s[at..at + 4] == mask && s[at + 4..at + 4 + |payload|] == Mask(payload, mask)
    ensures DecodeBody(s, maximum, opcode, |payload|, at) == Accepted(opcode, payload, mask, at + 4 + |payload|)
  {
    MaskTwice(payload, mask);
    FaultFree(opcode, payload, maximum);
  }

  lemma Glue(s: Bytes, front: Bytes, back: Bytes)
    requires front <= s && |front| + |back| <= |s| && back == s[|front|..|front| + |back|]
    ensures front + back == s[..|front| + |back|]
  {
  }

  lemma Slices(h: Bytes, mask: Bytes, masked: Bytes, tail: Bytes)
    ensures var s := h + (mask + masked) + tail;
            && s == h + (mask + masked + tail)
            && s[|h|..|h| + |mask|] == mask
            && s[|h| + |mask|..|h| + |mask| + |masked|] == masked
  {
  }

  lemma AcceptedBody(s: Bytes, opcode: Octet, length: nat, at: nat, maximum: nat)
    requires KnownOpcode(opcode) && length < TWO_63 && at <= |s|
    requires DecodeBody(s, maximum, opcode, length, at).Accepted?
    ensures var d := DecodeBody(s, maximum, opcode, length, at);
            && d.opcode == opcode && |d.payload| == length && |d.mask| == 4
            && LegalFrame(d.opcode, d.payload, maximum)
            && d.consumed == at + 4 + length <= |s|
            && s[at..d.consumed] == d.mask + Mask(d.payload, d.mask)
  {
    hide BigEndian, LegalCloseCode, ValidUtf8;
    var d := DecodeBody(s, maximum, opcode, length, at);
    MaskTwice(s[at + 4..at + 4 + length], d.mask);
    assert s[at..d.consumed] == s[at..at + 4] + s[at + 4..d.consumed];
  }

  lemma CutExtendedLength(s: Bytes, opcode: Octet, length7: nat)
    requires KnownOpcode(opcode) && 126 <= length7 <= 127 && 2 <= |s| < (if length7 == 126 then 4 else 10)
    requires s[0] == 0x80 + opcode && s[1] == 0x80 + length7
    ensures forall maximum: nat :: Decode(s, maximum) == Truncated
  {
    FirstByte(opcode);
  }

  lemma CutHeader(s: Bytes, opcode: Octet, length: nat, maximum: nat)
    requires KnownOpcode(opcode) && length < TWO_63
    requires s < Header(opcode, length)
    ensures Decode(s, maximum) == Truncated
  {
    var h := Header(opcode, length);
    if |s| >= 2 {
      assert s[0] == h[0] && s[1] == h[1];
      CutExtendedLength(s, opcode, if length <= 0xFFFF then 126 else 127);
    }
  }

  // ----- Main results -----------------------------------------------------------------

  /** Decoding an encoded legal frame gives it back and consumes exactly its
      bytes, whatever follows on the wire. */
  lemma DecodeOfEncode(opcode: Octet, payload: Bytes, mask: Bytes, tail: Bytes, maximum: nat)
    requires LegalFrame(opcode, payload, maximum) && |mask| == 4
    ensures var wire := EncodeClientFrame(opcode, payload, mask);
            Decode(wire + tail, maximum) == Accepted(opcode, payload, mask, |wire|)
  {
    var wire := EncodeClientFrame(opcode, payload, mask);
    var masked := Mask(payload, mask);
    var h := Header(opcode, |payload|);
    var s := wire + tail;
    Slices(h, mask, masked, tail);
    DecodeOfHeader(opcode, |payload|, mask + masked + tail, maximum);
    DecodeBodyOfMasked(s, opcode, payload, mask, |h|, maximum);
  }

  /** Every accepted byte string is the encoder's own output for the opcode,
      payload and mask that were read. */
  lemma EncodeOfDecode(s: Bytes, maximum: nat)
    requires Decode(s, maximum).Accepted?
    ensures var d := Decode(s, maximum);
            && LegalFrame(d.opcode, d.payload, maximum) && |d.mask| == 4
            && d.consumed <= |s|
            && EncodeClientFrame(d.opcode, d.payload, d.mask) == s[..d.consumed]
  {
    hide Decode, DecodeBody, Header, Mask;
    var d := Decode(s, maximum);
    var opcode, length := HeaderOfDecode(s, maximum);
    var h := Header(opcode, length);
    AcceptedBody(s, opcode, length, |h|, maximum);
    Glue(s, h, d.mask + Mask(d.payload, d.mask));
  }

  /** A frame cut short anywhere is never an error and never a frame: the reader
      waits for the rest (it reports the peer as closed only at end of stream). */
  lemma ProperPrefixIsTruncated(opcode: Octet, payload: Bytes, mask: Bytes, cut: nat, maximum: nat)
    requires LegalFrame(opcode, payload, maximum) && |mask| == 4
    requires cut < |EncodeClientFrame(opcode, payload, mask)|
    ensures Decode(EncodeClientFrame(opcode, payload, mask)[..cut], maximum) == Truncated
  {
    hide Mask, Decode, Header;
    var wire := EncodeClientFrame(opcode, payload, mask);
    var h := Header(opcode, |payload|);
    assert wire == h + (mask + Mask(payload, mask));
    var s := wire[..cut];
    if cut >= |h| {
      assert s == h + s[|h|..];
      DecodeOfHeader(opcode, |payload|, s[|h|..], maximum);
    } else {
      assert s == h[..cut];
      CutHeader(s, opcode, |payload|, maximum);
    }
  }

  // ----- Streams of frames --------------------------------------------------------------

  datatype ClientFrame = ClientFrame(opcode: Octet, payload: Bytes, mask: Bytes)

  datatype PumpEnd = CloseReceived | EndOfStream | Failed(closeCode: int)

  /** What the reader thread has queued when it stops, and why it stopped. */
  datatype Pumped = Pumped(frames: seq<ClientFrame>, end: PumpEnd)

  /** The reader thread: frames until a close frame, the end of the stream or a
      protocol error. */
  function Pump(s: Bytes, maximum: nat): Pumped
    decreases |s|
  {
    match Decode(s, maximum)
    case Truncated => Pumped([], EndOfStream)
    case Rejected(code, _) => Pumped([], Failed(code))
    case Accepted(opcode, payload, mask, consumed) =>
      EncodeOfDecode(s, maximum);
      var frame := ClientFrame(opcode, payload, mask);
      if opcode == 0x8 then Pumped([frame], CloseReceived)
      else
        var rest := Pump(s[consumed..], maximum);
        Pumped([frame] + rest.frames, rest.end)
  }

  ghost predicate LegalStream(frames: seq<ClientFrame>, maximum: nat) {
    forall i :: 0 <= i < |frames| ==>
      && LegalFrame(frames[i].opcode, frames[i].payload, maximum) && |frames[i].mask| == 4
      && (frames[i].opcode == 0x8 ==> i == |frames| - 1)
  }

  ghost function Wire(frames: seq<ClientFrame>): Bytes
    requires forall f :: f in frames ==> f.opcode < 0x80 && |f.mask| == 4 && |f.payload| < TWO_63
  {
    if frames == [] then []
    else EncodeClientFrame(frames[0].opcode, frames[0].payload, frames[0].mask) + Wire(frames[1..])
  }

  lemma FirstAndRest(frames: seq<ClientFrame>, maximum: nat)
    requires LegalStream(frames, maximum) && frames != []
    ensures LegalFrame(frames[0].opcode, frames[0].payload, maximum) && |frames[0].mask| == 4
    ensures LegalStream(frames[1..], maximum) && (frames[0].opcode == 0x8 ==> frames[1..] == [])
  {
    assert forall i :: 0 <= i < |frames[1..]| ==> frames[1..][i] == frames[i + 1];
  }

  lemma PumpCons(f: ClientFrame, tail: Bytes, maximum: nat)
    requires LegalFrame(f.opcode, f.payload, maximum) && |f.mask| == 4
    ensures Pump(EncodeClientFrame(f.opcode, f.payload, f.mask) + tail, maximum)
         == if f.opcode == 0x8 then Pumped([f], CloseReceived)
            else Pumped([f] + Pump(tail, maximum).frames, Pump(tail, maximum).end)
  {
    hide Decode, EncodeClientFrame;
    var wire := EncodeClientFrame(f.opcode, f.payload, f.mask);
    DecodeOfEncode(f.opcode, f.payload, f.mask, tail, maximum);
    assert (wire + tail)[|wire|..] == tail;
  }

  /** Frames sent back to back are received as the same list. */
  lemma {:induction false} PumpOfWire(frames: seq<ClientFrame>, maximum: nat)
    requires LegalStream(frames, maximum)
    ensures Pump(Wire(frames), maximum).frames == frames
    ensures Pump(Wire(frames), maximum).end
         == if frames != [] && frames[|frames| - 1].opcode == 0x8 then CloseReceived else EndOfStream
  {
    if frames == [] {
    } else {
      hide Pump, EncodeClientFrame, LegalFrame, LegalStream;
      var f, rest := frames[0], frames[1..];
      FirstAndRest(frames, maximum);
      PumpCons(f, Wire(rest), maximum);
      assert frames == [f] + rest;
      if f.opcode != 0x8 { PumpOfWire(rest, maximum); }
    }
  }

  lemma ConsFrame(f: ClientFrame, rest: seq<ClientFrame>, maximum: nat)
    requires LegalFrame(f.opcode, f.payload, maximum) && |f.mask| == 4
    requires LegalStream(rest, maximum) && (f.opcode == 0x8 ==> rest == [])
    ensures LegalStream([f] + rest, maximum)
    ensures Wire([f] + rest) == EncodeClientFrame(f.opcode, f.payload, f.mask) + Wire(rest)
  {
    assert ([f] + rest)[1..] == rest;
  }

  lemma PrefixBehind(s: Bytes, at: nat, back: Bytes)
    requires at <= |s| && back <= s[at..]
    ensures s[..at] + back <= s
  {
  }

  /** Whatever the peer sends, the queued frames are legal and re-encode to the
      bytes that were read. */
  lemma {:induction false} WireOfPump(s: Bytes, maximum: nat)
    ensures LegalStream(Pump(s, maximum).frames, maximum)
    ensures Wire(Pump(s, maximum).frames) <= s
    decreases |s|
  {
    hide Decode, Header, Mask;
    if !Decode(s, maximum).Accepted? {
    } else {
      var d := Decode(s, maximum);
      EncodeOfDecode(s, maximum);
      var f := ClientFrame(d.opcode, d.payload, d.mask);
      if d.opcode == 0x8 {
        ConsFrame(f, [], maximum);
        assert [f] + [] == [f];
      } else {
        WireOfPump(s[d.consumed..], maximum);
        var rest := Pump(s[d.consumed..], maximum).frames;
        ConsFrame(f, rest, maximum);
        PrefixBehind(s, d.consumed, Wire(rest));
      }
    }
  }
}
