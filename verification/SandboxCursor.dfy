/** Signed cursors of the sandbox profile list, over canonical base64url without
    padding (sections 3.5 and 5 of RFC 4648). Octets are integers below 256. HMAC
    and the JSON reader are parameters; the JSON writer is spelled out. */
module SandboxCursor {
  import opened Wrappers
  import opened Json
  import Text

  type Octets = seq<nat>

  predicate AllOctets(b: Octets) { forall i :: 0 <= i < |b| ==> b[i] < 256 }

  // ----- The alphabet -----------------------------------------------------------------

  predicate InAlphabet(c: char) {
    'A' <= c <= 'Z' || 'a' <= c <= 'z' || '0' <= c <= '9' || c == '-' || c == '_'
  }

  function Letter(v: nat): (c: char)
    requires v < 64
    ensures InAlphabet(c) && Value(c) == v
  {
    if v < 26 then ('A' as int + v) as char
    else if v < 52 then ('a' as int + (v - 26)) as char
    else if v < 62 then ('0' as int + (v - 52)) as char
    else if v == 62 then '-' else '_'
  }

  function Value(c: char): (v: nat)
    requires InAlphabet(c)
    ensures v < 64
  {
    if 'A' <= c <= 'Z' then c as int - 'A' as int
    else if 'a' <= c <= 'z' then c as int - 'a' as int + 26
    else if '0' <= c <= '9' then c as int - '0' as int + 52
    else if c == '-' then 62 else 63
  }

  predicate AllInAlphabet(s: string) { forall i :: 0 <= i < |s| ==> InAlphabet(s[i]) }

  // ----- Encoding and decoding -----------------------------------------------------------

  predicate AllSextets(v: seq<nat>) { forall i :: 0 <= i < |v| ==> v[i] < 64 }

  /** The four six-bit values of three octets. */
  function Split(x: nat, y: nat, z: nat): (v: seq<nat>)
    requires x < 256 && y < 256 && z < 256
    ensures |v| == 4 && v[0] < 64 && v[1] < 64 && v[2] < 64 && v[3] < 64
  {
    [x / 4, x % 4 * 16 + y / 16, y % 16 * 4 + z / 64, z % 64]
  }

  /** The three octets of four six-bit values. */
  function Join(v: seq<nat>): (b: Octets)
    requires |v| == 4 && v[0] < 64 && v[1] < 64 && v[2] < 64 && v[3] < 64
    ensures |b| == 3 && b[0] < 256 && b[1] < 256 && b[2] < 256
  {
    [v[0] * 4 + v[1] / 16, v[1] % 16 * 16 + v[2] / 4, v[2] % 4 * 64 + v[3]]
  }

  /** The bits of the octets, six at a time, the last value filled up with zeros. */
  function ToSextets(b: Octets): (v: seq<nat>)
    requires AllOctets(b)
    ensures AllSextets(v) && |v| % 4 != 1 && |v| == (4 * |b| + 2) / 3
  {
    if b == [] then []
    else if |b| == 1 then Split(b[0], 0, 0)[..2]
    else if |b| == 2 then Split(b[0], b[1], 0)[..3]
    else Split(b[0], b[1], b[2]) + ToSextets(b[3..])
  }

  /** The whole octets in the bits; leftover bits of the last value are dropped. */
  function FromSextets(v: seq<nat>): (b: Octets)
    requires AllSextets(v) && |v| % 4 != 1
    ensures AllOctets(b)
  {
    if v == [] then []
    else if |v| == 2 then Join(v + [0, 0])[..1]
    else if |v| == 3 then Join(v + [0])[..2]
    else Join(v[..4]) + FromSextets(v[4..])
  }

  function Letters(v: seq<nat>): (s: string)
    requires AllSextets(v)
    ensures |s| == |v| && AllInAlphabet(s)
    ensures forall i :: 0 <= i < |v| ==> s[i] == Letter(v[i])
  {
    seq(|v|, i requires 0 <= i < |v| => Letter(v[i]))
  }

  function Values(s: string): (v: seq<nat>)
    requires AllInAlphabet(s)
    ensures |v| == |s| && AllSextets(v)
    ensures forall i :: 0 <= i < |s| ==> v[i] == Value(s[i])
  {
    seq(|s|, i requires 0 <= i < |s| => Value(s[i]))
  }

  /** Base64url without padding. */
  function Encode(b: Octets): (s: string)
    requires AllOctets(b)
    ensures AllInAlphabet(s) && |s| % 4 != 1 && |s| == (4 * |b| + 2) / 3
  {
    Letters(ToSextets(b))
  }

  /** What the library decoder yields. */
  function LooseDecode(s: string): (b: Octets)
    requires AllInAlphabet(s) && |s| % 4 != 1
    ensures AllOctets(b)
  {
    FromSextets(Values(s))
  }

  /** The octets, or nothing where the source raises. */
  function Decode(segment: string): Option<Octets> {
    if segment == "" || |segment| % 4 == 1 || !AllInAlphabet(segment) then None
    else
      var decoded := LooseDecode(segment);
      if Encode(decoded) != segment then None else Some(decoded)
  }

  lemma PartsOf16(q: nat, r: nat)
    requires r < 16
    ensures (q * 16 + r) / 16 == q && (q * 16 + r) % 16 == r
  {
  }

  lemma PartsOf4(q: nat, r: nat)
    requires r < 4
    ensures (q * 4 + r) / 4 == q && (q * 4 + r) % 4 == r
  {
  }

  lemma JoinOfSplit(x: nat, y: nat, z: nat)
    requires x < 256 && y < 256 && z < 256
    ensures Join(Split(x, y, z)) == [x, y, z]
  {
    PartsOf16(x % 4, y / 16);
    PartsOf4(y % 16, z / 64);
    assert x / 4 * 4 + x % 4 == x && y / 16 * 16 + y % 16 == y && z / 64 * 64 + z % 64 == z;
  }

  lemma FilledWithZeros(x: nat, y: nat)
    requires x < 256 && y < 256
    ensures Split(x, 0, 0)[2..] == [0, 0] && Split(x, y, 0)[3] == 0
  {
  }

  lemma OneOctet(b: Octets)
    requires AllOctets(b) && |b| == 1
    ensures FromSextets(ToSextets(b)) == b
  {
    var group := Split(b[0], 0, 0);
    FilledWithZeros(b[0], 0);
    assert group[..2] + [0, 0] == group;
    JoinOfSplit(b[0], 0, 0);
  }

  lemma TwoOctets(b: Octets)
    requires AllOctets(b) && |b| == 2
    ensures FromSextets(ToSextets(b)) == b
  {
    var group := Split(b[0], b[1], 0);
    FilledWithZeros(b[0], b[1]);
    assert group[..3] + [0] == group;
    JoinOfSplit(b[0], b[1], 0);
  }

  lemma {:induction false} SextetsRoundTrip(b: Octets)
    requires AllOctets(b)
    ensures FromSextets(ToSextets(b)) == b
  {
    if |b| == 1 {
      OneOctet(b);
    } else if |b| == 2 {
      TwoOctets(b);
    } else if |b| >= 3 {
      var group, rest := Split(b[0], b[1], b[2]), ToSextets(b[3..]);
      var v := ToSextets(b);
      SextetsRoundTrip(b[3..]);
      JoinOfSplit(b[0], b[1], b[2]);
      assert v[..4] == group && v[4..] == rest;
      assert b == [b[0], b[1], b[2]] + b[3..];
    }
  }

  lemma LooseDecodeOfEncode(b: Octets)
    requires AllOctets(b)
    ensures LooseDecode(Encode(b)) == b
  {
    SextetsRoundTrip(b);
    var v := ToSextets(b);
    assert Values(Letters(v)) == v;
  }

  /** Accepted segments are exactly the encodings of non-empty octet strings. */
  lemma DecodeIsInverse(segment: string, b: Octets)
    ensures Decode(segment) == Some(b) <==> AllOctets(b) && b != [] && segment == Encode(b)
  {
    if AllOctets(b) && b != [] && segment == Encode(b) {
      LooseDecodeOfEncode(b);
    }
  }

  /** Leftover bits in the last character are refused: of the sixteen spellings
      of one octet only the encoder's is accepted. */
  lemma LeftoverBitsRefused(x: nat, v: nat)
    requires x < 256 && v < 64 && v / 16 == x % 4
    ensures LooseDecode(Letters([x / 4, v])) == [x]
    ensures Decode(Letters([x / 4, v])).Some? <==> v % 16 == 0
  {
    hide Letter, Value;
    var s := Letters([x / 4, v]);
    assert Values(s) == [x / 4, v];
    assert ToSextets([x]) == [x / 4, x % 4 * 16];
    if Encode([x]) == s {
      assert Values(Encode([x]))[1] == Values(s)[1] == v;
    }
  }

  // ----- The payload ------------------------------------------------------------------------

  predicate HexCharacter(c: char) { '0' <= c <= '9' || 'a' <= c <= 'f' }

  const ID_PREFIX: string := "sandbox-"

  predicate LegalId(s: string) {
    |s| == 40 && s[..8] == ID_PREFIX && forall i :: 8 <= i < 40 ==> HexCharacter(s[i])
  }

  /** The prefix and thirty-two lower-case hexadecimal digits, by code point. */
  lemma IdPattern(s: string)
    ensures LegalId(s) <==>
              && |s| == 40 && s[..8] == "sandbox-"
              && forall i :: 8 <= i < 40 ==> 48 <= s[i] as int <= 57 || 97 <= s[i] as int <= 102
  {
  }

  const STATES: set<string> := {"draft", "ready", "active", "inactive", "archived"}

  predicate LegalState(state: Option<string>) { state.Some? ==> state.value in STATES }

  function StateJson(state: Option<string>): Json { if state.None? then Null else Str(state.value) }

  function Payload(name: string, id: string, state: Option<string>): Json {
    Obj(map["v" := Int(1), "profile_name" := Str(name), "sandbox_id" := Str(id), "state" := StateJson(state)])
  }

  function StateText(state: Option<string>): string { if state.None? then "null" else "\"" + state.value + "\"" }

  /** What follows the name in a payload. */
  function AfterName(id: string, state: Option<string>): string {
    ",\"sandbox_id\":\"" + (id + ("\",\"state\":" + (StateText(state) + ",\"v\":1}")))
  }

  /** `json.dumps` with sorted keys: names, identifiers and states need no escapes. */
  function PayloadText(name: string, id: string, state: Option<string>): string {
    "{\"profile_name\":\"" + (name + "\"" + AfterName(id, state))
  }

  predicate Ascii(s: string) { forall i :: 0 <= i < |s| ==> s[i] as int < 128 }

  function Utf8(s: string): (b: Octets)
    requires Ascii(s)
    ensures |b| == |s| && AllOctets(b)
  {
    seq(|s|, i requires 0 <= i < |s| => s[i] as int)
  }

  predicate LegalFields(name: string, id: string, state: Option<string>) {
    Text.IsName(name) && LegalId(id) && LegalState(state)
  }

  lemma StateIsAscii(state: Option<string>)
    requires LegalState(state)
    ensures Ascii(StateText(state)) && 4 <= |StateText(state)| <= 10
  {
  }

  lemma AsciiConcat(a: string, b: string)
    requires Ascii(a) && Ascii(b)
    ensures Ascii(a + b)
  {
  }

  lemma PayloadIsAscii(name: string, id: string, state: Option<string>)
    requires LegalFields(name, id, state)
    ensures Ascii(PayloadText(name, id, state)) && 60 < |PayloadText(name, id, state)| < 200
  {
    StateIsAscii(state);
    var s := StateText(state);
    var tail := s + ",\"v\":1}";
    AsciiConcat(s, ",\"v\":1}");
    AsciiConcat("\",\"state\":", tail);
    AsciiConcat(id, "\",\"state\":" + tail);
    AsciiConcat(",\"sandbox_id\":\"", id + ("\",\"state\":" + tail));
    AsciiConcat(name, "\"");
    AsciiConcat(name + "\"", AfterName(id, state));
    AsciiConcat("{\"profile_name\":\"", name + "\"" + AfterName(id, state));
  }

  function PayloadOctets(name: string, id: string, state: Option<string>): (b: Octets)
    requires LegalFields(name, id, state)
    ensures AllOctets(b) && 60 < |b| < 200
  {
    PayloadIsAscii(name, id, state);
    Utf8(PayloadText(name, id, state))
  }

  // ----- The cursor --------------------------------------------------------------------------

  const DIGEST_SIZE: nat := 32

  /** `sign(secret, payload)` is the HMAC under the key derived from the secret;
      `load` reads UTF-8 encoded JSON strictly, None where it raises. */
  datatype Primitives = Primitives(sign: (string, Octets) -> Octets, load: Octets -> Option<Json>)

  /** The digest has its size, and the reader reads back what was written. */
  ghost predicate Sound(p: Primitives) {
    && (forall secret, b :: AllOctets(p.sign(secret, b)) && |p.sign(secret, b)| == DIGEST_SIZE)
    && (forall name, id, state :: LegalFields(name, id, state) ==>
          p.load(PayloadOctets(name, id, state)) == Some(Payload(name, id, state)))
  }

  lemma {:induction false} UpToQuote(a: string, r: string, b: string, t: string)
    requires '"' !in a && '"' !in b && a + "\"" + r == b + "\"" + t
    ensures a == b && r == t
  {
    var s := a + "\"" + r;
    assert s[0] == (if a == "" then '"' else a[0]) == (if b == "" then '"' else b[0]);
    assert a == "" <==> b == "";
    if a == "" {
      assert r == s[1..] == t;
    } else {
      assert s[1..] == a[1..] + "\"" + r == b[1..] + "\"" + t;
      UpToQuote(a[1..], r, b[1..], t);
    }
  }

  lemma TextByName(name: string, id: string, state: Option<string>)
    ensures PayloadText(name, id, state)[17..] == name + "\"" + AfterName(id, state)
  {
  }

  lemma Pieces(a: string, b: string, c: string)
    ensures (a + (b + c))[|a|..|a| + |b|] == b && (a + (b + c))[|a| + |b|..] == c
  {
  }

  lemma PiecesBehind(s: string, at: nat, a: string, b: string)
    requires at <= |s| && s[at..] == a + b
    ensures |s| == at + |a| + |b| && s[at + |a|..] == b
  {
    assert s[at + |a|..] == s[at..][|a|..];
  }

  lemma AfterNameParts(id: string, state: Option<string>)
    requires |id| == 40
    ensures |AfterName(id, state)| > 65 && AfterName(id, state)[15..55] == id
    ensures AfterName(id, state)[65..] == StateText(state) + ",\"v\":1}"
  {
    hide StateText;
    var open, middle, rest := ",\"sandbox_id\":\"", "\",\"state\":", StateText(state) + ",\"v\":1}";
    assert |open| == 15 && |middle| == 10;
    Pieces(open, id, middle + rest);
    PiecesBehind(AfterName(id, state), 55, middle, rest);
  }

  lemma QuotedState(value: string, tail: string)
    ensures (StateText(Some(value)) + tail)[1..] == value + "\"" + tail
  {
  }

  lemma StateTextInjective(state: Option<string>, other: Option<string>)
    requires LegalState(state) && LegalState(other) && StateText(state) + ",\"v\":1}" == StateText(other) + ",\"v\":1}"
    ensures state == other
  {
    var tail := ",\"v\":1}";
    var s, t := StateText(state) + tail, StateText(other) + tail;
    assert s[0] == t[0] && s[1..] == t[1..];
    if state.Some? && other.Some? {
      QuotedState(state.value, tail);
      QuotedState(other.value, tail);
      UpToQuote(state.value, tail, other.value, tail);
    }
  }

  /** Different names, identifiers or states have different payloads. */
  lemma PayloadInjective(name: string, id: string, state: Option<string>, name2: string, id2: string,
                         state2: Option<string>)
    requires LegalFields(name, id, state) && LegalFields(name2, id2, state2)
    requires PayloadText(name, id, state) == PayloadText(name2, id2, state2)
    ensures name == name2 && id == id2 && state == state2
  {
    TextByName(name, id, state);
    TextByName(name2, id2, state2);
    UpToQuote(name, AfterName(id, state), name2, AfterName(id2, state2));
    AfterNameParts(id, state);
    AfterNameParts(id2, state2);
    StateTextInjective(state, state2);
  }

  ghost function Read(b: Octets): Option<Json> {
    if exists name, id, state :: LegalFields(name, id, state) && PayloadOctets(name, id, state) == b then
      var name, id, state :| LegalFields(name, id, state) && PayloadOctets(name, id, state) == b;
      Some(Payload(name, id, state))
    else None
  }

  lemma SameOctetsSameText(s: string, t: string)
    requires Ascii(s) && Ascii(t) && Utf8(s) == Utf8(t)
    ensures s == t
  {
    forall i | 0 <= i < |s|
      ensures s[i] == t[i]
    {
      assert Utf8(s)[i] == s[i] as int && Utf8(t)[i] == t[i] as int;
    }
  }

  /** Sound primitives exist: the assumptions on them do not contradict each other. */
  lemma SoundPrimitivesExist()
    ensures exists p: Primitives :: Sound(p)
  {
    var p := Primitives((secret, b) => seq(DIGEST_SIZE, _ => 0), b => Read(b));
    forall name, id, state | LegalFields(name, id, state)
      ensures Read(PayloadOctets(name, id, state)) == Some(Payload(name, id, state))
    {
      var b := PayloadOctets(name, id, state);
      var name2, id2, state2 :| LegalFields(name2, id2, state2) && PayloadOctets(name2, id2, state2) == b
                                && Read(b) == Some(Payload(name2, id2, state2));
      PayloadIsAscii(name, id, state);
      PayloadIsAscii(name2, id2, state2);
      SameOctetsSameText(PayloadText(name, id, state), PayloadText(name2, id2, state2));
      PayloadInjective(name, id, state, name2, id2, state2);
    }
    assert Sound(p);
  }

  function EncodeCursor(p: Primitives, name: string, id: string, state: Option<string>, secret: string): string
    requires LegalFields(name, id, state)
    requires AllOctets(p.sign(secret, PayloadOctets(name, id, state)))
  {
    var payload := PayloadOctets(name, id, state);
    Encode(payload) + "." + Encode(p.sign(secret, payload))
  }

  function Dots(s: string): nat {
    if s == "" then 0 else (if s[0] == '.' then 1 else 0) + Dots(s[1..])
  }

  /** Position of the first dot, or the length. */
  function FirstDot(s: string): (n: nat)
    ensures n <= |s|
  {
    if s == "" || s[0] == '.' then 0 else 1 + FirstDot(s[1..])
  }

  predicate PayloadAccepted(parsed: Json, state: Option<string>) {
    && parsed.Obj? && parsed.fields.Keys == {"v", "profile_name", "sandbox_id", "state"}
    && parsed.fields["v"] == Int(1) && parsed.fields["state"] == StateJson(state)
    && parsed.fields["profile_name"].Str? && Text.IsName(parsed.fields["profile_name"].s)
    && parsed.fields["sandbox_id"].Str? && LegalId(parsed.fields["sandbox_id"].s)
  }

  /** Name and identifier in a payload, if it is the canonical text of a payload for `state`. */
  function ReadPayload(p: Primitives, payload: Octets, state: Option<string>): Option<(string, string)>
    requires LegalState(state)
  {
    var parsed := p.load(payload);
    if parsed.None? || !PayloadAccepted(parsed.value, state) then None
    else
      var name, id := parsed.value.fields["profile_name"].s, parsed.value.fields["sandbox_id"].s;
      if PayloadOctets(name, id, state) != payload then None else Some((name, id))
  }

  /** Name and identifier, or nothing where the source raises. */
  function DecodeCursor(p: Primitives, cursor: string, state: Option<string>, secret: string): Option<(string, string)>
    requires LegalState(state)
  {
    if !(16 <= |cursor| <= 2048) || Dots(cursor) != 1 then None
    else
      var n := FirstDot(cursor);
      var payload, signature := Decode(cursor[..n]), Decode(if n < |cursor| then cursor[n + 1..] else "");
      if payload.None? || signature.None? || |signature.value| != DIGEST_SIZE then None
      else if signature.value != p.sign(secret, payload.value) then None
      else ReadPayload(p, payload.value, state)
  }

  lemma {:induction false} NoDots(s: string)
    requires '.' !in s
    ensures Dots(s) == 0 && FirstDot(s) == |s|
  {
    if s == "" {
    } else {
      NoDots(s[1..]);
    }
  }

  lemma {:induction false} OneDot(left: string, right: string)
    requires '.' !in left && '.' !in right
    ensures Dots(left + "." + right) == 1 && FirstDot(left + "." + right) == |left|
  {
    var s := left + "." + right;
    if left == "" {
      assert s[1..] == right;
      NoDots(right);
    } else {
      assert s[1..] == left[1..] + "." + right;
      OneDot(left[1..], right);
    }
  }

  lemma {:induction false} SplitAtDot(s: string)
    requires Dots(s) == 1
    ensures var n := FirstDot(s); n < |s| && s == s[..n] + "." + s[n + 1..]
  {
    if s[0] == '.' {
    } else {
      SplitAtDot(s[1..]);
      var n := FirstDot(s);
      assert s[..n] == [s[0]] + s[1..][..n - 1] && s[n + 1..] == s[1..][n..];
    }
  }

  lemma EncodingsHaveNoDot(b: Octets)
    requires AllOctets(b)
    ensures '.' !in Encode(b)
  {
    forall i | 0 <= i < |Encode(b)|
      ensures Encode(b)[i] != '.'
    {
      assert InAlphabet(Encode(b)[i]);
    }
  }

  /** What the encoder produces is within the decoder's length bounds. */
  lemma EncodedLength(p: Primitives, name: string, id: string, state: Option<string>, secret: string)
    requires Sound(p) && LegalFields(name, id, state)
    ensures 16 <= |EncodeCursor(p, name, id, state, secret)| <= 2048
  {
    var payload := PayloadOctets(name, id, state);
    assert |Encode(payload)| <= 267 && |Encode(p.sign(secret, payload))| == 43;
  }

  /** Any non-empty payload with its signature passes the outer checks. */
  lemma SignedPayloadDecodes(p: Primitives, payload: Octets, state: Option<string>, secret: string)
    requires LegalState(state) && AllOctets(payload) && payload != []
    requires AllOctets(p.sign(secret, payload)) && |p.sign(secret, payload)| == DIGEST_SIZE
    requires 16 <= |Encode(payload) + "." + Encode(p.sign(secret, payload))| <= 2048
    ensures DecodeCursor(p, Encode(payload) + "." + Encode(p.sign(secret, payload)), state, secret)
         == ReadPayload(p, payload, state)
  {
    hide ToSextets, ReadPayload;
    var left, right := Encode(payload), Encode(p.sign(secret, payload));
    var cursor := left + "." + right;
    EncodingsHaveNoDot(payload);
    EncodingsHaveNoDot(p.sign(secret, payload));
    OneDot(left, right);
    assert cursor[..|left|] == left && cursor[|left| + 1..] == right;
    DecodeIsInverse(left, payload);
    DecodeIsInverse(right, p.sign(secret, payload));
  }

  lemma AcceptsEncoded(p: Primitives, name: string, id: string, state: Option<string>, secret: string)
    requires Sound(p) && LegalFields(name, id, state)
    ensures DecodeCursor(p, EncodeCursor(p, name, id, state, secret), state, secret) == Some((name, id))
  {
    hide PayloadOctets, ToSextets, DecodeCursor, Text.IsName;
    var payload := PayloadOctets(name, id, state);
    EncodedLength(p, name, id, state, secret);
    SignedPayloadDecodes(p, payload, state, secret);
    assert p.load(payload) == Some(Payload(name, id, state));
  }

  lemma AcceptedIsEncoded(p: Primitives, cursor: string, name: string, id: string, state: Option<string>,
                          secret: string)
    requires Sound(p) && LegalState(state) && DecodeCursor(p, cursor, state, secret) == Some((name, id))
    ensures LegalFields(name, id, state) && cursor == EncodeCursor(p, name, id, state, secret)
  {
    SplitAtDot(cursor);
    var n := FirstDot(cursor);
    var left, right := cursor[..n], cursor[n + 1..];
    DecodeIsInverse(left, Decode(left).value);
    DecodeIsInverse(right, Decode(right).value);
  }

  /** A cursor is accepted under a secret and a state filter, with a name and an
      identifier, exactly when it is the encoder's output for them. */
  lemma AcceptedExactlyWhenEncoded(p: Primitives, cursor: string, name: string, id: string, state: Option<string>,
                                   secret: string)
    requires Sound(p) && LegalState(state)
    ensures DecodeCursor(p, cursor, state, secret) == Some((name, id))
       <==> LegalFields(name, id, state) && cursor == EncodeCursor(p, name, id, state, secret)
  {
    if DecodeCursor(p, cursor, state, secret) == Some((name, id)) {
      AcceptedIsEncoded(p, cursor, name, id, state, secret);
    } else if LegalFields(name, id, state) {
      AcceptsEncoded(p, name, id, state, secret);
    }
  }

  /** A cursor issued for one state filter is refused under every other. */
  lemma OtherFilterRefuses(p: Primitives, name: string, id: string, state: Option<string>, other: Option<string>,
                           secret: string)
    requires Sound(p) && LegalFields(name, id, state) && LegalState(other) && other != state
    ensures DecodeCursor(p, EncodeCursor(p, name, id, state, secret), other, secret).None?
  {
    var payload := PayloadOctets(name, id, state);
    EncodedLength(p, name, id, state, secret);
    SignedPayloadDecodes(p, payload, other, secret);
    assert p.load(payload) == Some(Payload(name, id, state));
  }
}
