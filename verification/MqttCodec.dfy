/** The MQTT 3.1.1 wire format as the backend reads and writes it: Remaining
    Length (section 2.2.3), framing (section 2.2), PUBLISH and PUBACK (sections
    3.3 and 3.4) and CONNECT (section 3.1). */
module MqttCodec {
  import opened Base

  type Byte = b: int | 0 <= b < 256 witness 0

  const MAX_REMAINING_LENGTH: nat := 268_435_455

  /** Reading a value off the front of a byte stream. */
  datatype Reading<T> = Read(value: T, rest: seq<Byte>) | Truncated | Malformed

  // ---- Remaining Length ----

  /** Base 128, least significant digit first, the top bit marking that more follow. */
  function EncodeLength(n: nat): (r: seq<Byte>)
    ensures |r| >= 1
  {
    if n < 128 then [n] else [n % 128 + 128] + EncodeLength(n / 128)
  }

  /** At most k digits. */
  function DecodeLength(s: seq<Byte>, k: nat): Reading<nat> {
    if k == 0 then Malformed
    else if s == [] then Truncated
    else if s[0] < 128 then Read(s[0], s[1..])
    else
      match DecodeLength(s[1..], k - 1)
      case Read(v, rest) => Read(s[0] - 128 + 128 * v, rest)
      case Truncated => Truncated
      case Malformed => Malformed
  }

  function Pow128(k: nat): (r: nat)
    ensures r >= 1
  {
    if k == 0 then 1 else 128 * Pow128(k - 1)
  }

  /** The encoding has as few digits as base 128 allows. */
  lemma {:induction false} EncodeLengthDigits(n: nat, k: nat)
    requires k >= 1
    ensures |EncodeLength(n)| <= k <==> n < Pow128(k)
  {
    if k == 1 {
      assert Pow128(1) == 128 * Pow128(0);
    } else if n >= 128 {
      EncodeLengthDigits(n / 128, k - 1);
    }
  }

  lemma FourDigits()
    ensures Pow128(4) == MAX_REMAINING_LENGTH + 1
  {
    assert Pow128(1) == 128 && Pow128(2) == 16_384 && Pow128(3) == 2_097_152;
  }

  /** One to four bytes exactly for the lengths the protocol allows. */
  lemma EncodeLengthSize(n: nat)
    ensures 1 <= |EncodeLength(n)| <= 4 <==> n <= MAX_REMAINING_LENGTH
  {
    EncodeLengthDigits(n, 4);
    FourDigits();
  }

  /** Decoding inverts encoding before any suffix if the digits suffice, and
      rejects the encoding otherwise. */
  lemma {:induction false} DecodeEncodedLength(n: nat, k: nat, suffix: seq<Byte>)
    ensures DecodeLength(EncodeLength(n) + suffix, k) == if |EncodeLength(n)| <= k then Read(n, suffix) else Malformed
  {
    if k > 0 {
      var s := EncodeLength(n) + suffix;
      if n < 128 {
        assert s[1..] == suffix;
      } else {
        assert s[1..] == EncodeLength(n / 128) + suffix;
        DecodeEncodedLength(n / 128, k - 1, suffix);
      }
    }
  }

  /** The protocol's lengths round-trip; the encoding of every larger number is rejected. */
  lemma LengthRoundTrip(n: nat, suffix: seq<Byte>)
    ensures DecodeLength(EncodeLength(n) + suffix, 4)
        == if n <= MAX_REMAINING_LENGTH then Read(n, suffix) else Malformed
  {
    DecodeEncodedLength(n, 4, suffix);
    EncodeLengthSize(n);
  }

  /** Whatever is read consumes a prefix, is below the bound, and was written in
      no fewer bytes than its encoding has. */
  lemma {:induction false} DecodedLengthIsBounded(s: seq<Byte>, k: nat)
    requires DecodeLength(s, k).Read?
    ensures
      var v, rest := DecodeLength(s, k).value, DecodeLength(s, k).rest;
      && v < Pow128(k)
      && |rest| < |s| && rest == s[|s| - |rest|..]
      && |EncodeLength(v)| <= |s| - |rest| <= k
  {
    if s[0] >= 128 {
      DecodedLengthIsBounded(s[1..], k - 1);
      var v, rest := DecodeLength(s[1..], k - 1).value, DecodeLength(s[1..], k - 1).rest;
      EncodeLengthDigits(v, |s| - 1 - |rest|);
      EncodeLengthDigits(s[0] - 128 + 128 * v, |s| - |rest|);
    } else {
      assert Pow128(k) == 128 * Pow128(k - 1);
      EncodeLengthDigits(s[0], 1);
    }
  }

  lemma AcceptedLengths(s: seq<Byte>)
    requires DecodeLength(s, 4).Read?
    ensures
      var v, rest := DecodeLength(s, 4).value, DecodeLength(s, 4).rest;
      && v <= MAX_REMAINING_LENGTH
      && 1 <= |EncodeLength(v)| <= |s| - |rest| <= 4
      && rest == s[|s| - |rest|..]
  {
    DecodedLengthIsBounded(s, 4);
    FourDigits();
  }

  // ---- packets ----

  datatype Packet = Packet(kind: nat, flags: nat, payload: seq<Byte>)

  predicate ValidHeader(p: Packet) {
    p.kind < 16 && p.flags < 16
  }

  predicate ValidPacket(p: Packet) {
    ValidHeader(p) && |p.payload| <= MAX_REMAINING_LENGTH
  }

  function EncodeHeader(p: Packet): seq<Byte>
    requires ValidHeader(p)
  {
    [p.kind * 16 + p.flags] + EncodeLength(|p.payload|)
  }

  function EncodePacket(p: Packet): seq<Byte>
    requires ValidHeader(p)
  {
    EncodeHeader(p) + p.payload
  }

  function DecodePacket(s: seq<Byte>): Reading<Packet> {
    if s == [] then Truncated
    else
      match DecodeLength(s[1..], 4)
      case Truncated => Truncated
      case Malformed => Malformed
      case Read(n, rest) =>
        if |rest| < n then Truncated else Read(Packet(s[0] / 16, s[0] % 16, rest[..n]), rest[n..])
  }

  lemma DecodePacketShrinks(s: seq<Byte>)
    requires DecodePacket(s).Read?
    ensures |DecodePacket(s).rest| < |s|
    ensures ValidPacket(DecodePacket(s).value)
  {
    AcceptedLengths(s[1..]);
  }

  /** A packet is read back before any suffix exactly if its payload is not too
      long; otherwise the reader rejects it. */
  lemma PacketRoundTrip(p: Packet, suffix: seq<Byte>)
    requires ValidHeader(p)
    ensures DecodePacket(EncodePacket(p) + suffix)
        == if |p.payload| <= MAX_REMAINING_LENGTH then Read(p, suffix) else Malformed
  {
    var s := EncodePacket(p) + suffix;
    assert s[1..] == EncodeLength(|p.payload|) + (p.payload + suffix);
    LengthRoundTrip(|p.payload|, p.payload + suffix);
    assert (p.payload + suffix)[..|p.payload|] == p.payload;
    assert (p.payload + suffix)[|p.payload|..] == suffix;
  }

  // ---- streams ----

  predicate AllValid(ps: seq<Packet>) {
    forall i :: 0 <= i < |ps| ==> ValidPacket(ps[i])
  }

  function EncodeStream(ps: seq<Packet>): seq<Byte>
    requires AllValid(ps)
  {
    if ps == [] then [] else EncodePacket(ps[0]) + EncodeStream(ps[1..])
  }

  /** The packets that can be read one after the other, and what is left then. */
  function DecodeStream(s: seq<Byte>): (seq<Packet>, seq<Byte>)
    decreases |s|
  {
    match DecodePacket(s)
    case Truncated => ([], s)
    case Malformed => ([], s)
    case Read(p, rest) =>
      DecodePacketShrinks(s);
      var (ps, left) := DecodeStream(rest);
      ([p] + ps, left)
  }

  lemma StreamSplit(ps: seq<Packet>, tail: seq<Byte>)
    requires AllValid(ps) && ps != []
    ensures EncodeStream(ps) + tail == EncodePacket(ps[0]) + (EncodeStream(ps[1..]) + tail)
  {
  }

  lemma StreamStep(s: seq<Byte>, p: Packet, rest: seq<Byte>)
    requires DecodePacket(s) == Read(p, rest)
    ensures DecodeStream(s) == ([p] + DecodeStream(rest).0, DecodeStream(rest).1)
  {
  }

  lemma FirstOfStream(ps: seq<Packet>, tail: seq<Byte>)
    requires AllValid(ps) && ps != []
    ensures
      var rest := DecodeStream(EncodeStream(ps[1..]) + tail);
      DecodeStream(EncodeStream(ps) + tail) == ([ps[0]] + rest.0, rest.1)
  {
    StreamSplit(ps, tail);
    PacketRoundTrip(ps[0], EncodeStream(ps[1..]) + tail);
    StreamStep(EncodeStream(ps) + tail, ps[0], EncodeStream(ps[1..]) + tail);
  }

  /** Reading after any written packets yields exactly those packets and then
      whatever the rest of the stream yields. */
  lemma {:induction false} StreamRoundTrip(ps: seq<Packet>, tail: seq<Byte>)
    requires AllValid(ps)
    ensures DecodeStream(EncodeStream(ps) + tail) == (ps + DecodeStream(tail).0, DecodeStream(tail).1)
  {
    if ps == [] {
      assert EncodeStream(ps) + tail == tail;
      NothingBefore(DecodeStream(tail).0);
    } else {
      FirstOfStream(ps, tail);
      StreamRoundTrip(ps[1..], tail);
      Reassemble(ps, DecodeStream(tail).0);
    }
  }

  lemma NothingBefore<T>(t: seq<T>)
    ensures [] + t == t
  {
  }

  lemma Reassemble<T>(s: seq<T>, t: seq<T>)
    requires s != []
    ensures [s[0]] + (s[1..] + t) == s + t
  {
  }

  /** A list of packets is read back with no bytes left, so no two lists share an encoding. */
  lemma FramingIsUnique(ps: seq<Packet>, qs: seq<Packet>)
    requires AllValid(ps) && AllValid(qs)
    ensures DecodeStream(EncodeStream(ps)) == (ps, [])
    ensures EncodeStream(ps) == EncodeStream(qs) ==> ps == qs
  {
    StreamRoundTrip(ps, []);
    StreamRoundTrip(qs, []);
    assert EncodeStream(ps) + [] == EncodeStream(ps) && EncodeStream(qs) + [] == EncodeStream(qs);
    assert ps + [] == ps && qs + [] == qs;
  }

  // ---- PUBLISH ----

  /** binary.BigEndian.Uint16 and its inverse; a longer value is cut to 16 bits. */
  function U16(n: nat): seq<Byte> {
    [n / 256 % 256, n % 256]
  }

  function FromU16(s: seq<Byte>): nat
    requires |s| >= 2
  {
    var high: int, low: int := s[0], s[1];
    high * 256 + low
  }

  lemma U16RoundTrip(n: nat, s: seq<Byte>)
    ensures FromU16(U16(n)) == n % 65536 == U16(n)[0] as int * 256 + U16(n)[1] as int
    ensures |s| == 2 ==> U16(FromU16(s)) == s
  {
    if |s| == 2 {
      assert U16(FromU16(s))[0] == s[0] && U16(FromU16(s))[1] == s[1];
    }
  }

  /** writeUTF. */
  function Utf(s: seq<Byte>): seq<Byte> {
    U16(|s|) + s
  }

  /** id has two bytes when the quality of service is above zero, and none otherwise. */
  datatype Publish = Publish(topic: seq<Byte>, id: seq<Byte>, message: seq<Byte>)

  function QoS(flags: nat): nat {
    flags / 2 % 4
  }

  function ParsePublish(flags: nat, payload: seq<Byte>): Option<Publish> {
    if |payload| < 2 then None
    else
      var offset := 2 + FromU16(payload);
      var idLength := if QoS(flags) > 0 then 2 else 0;
      if |payload| < offset + idLength then None
      else Some(Publish(payload[2..offset], payload[offset..offset + idLength], payload[offset + idLength..]))
  }

  /** The layout of a PUBLISH payload in section 3.3 of the standard: the topic after
      its length in two bytes, the more significant one first, then a packet id
      unless bits 1 and 2 of the flags are both zero, then the message. */
  predicate IsPublish(flags: nat, payload: seq<Byte>, p: Publish) {
    && |p.topic| <= 65535
    && |p.id| == (if flags % 8 >= 2 then 2 else 0)
    && payload == [|p.topic| / 256, |p.topic| % 256] + p.topic + p.id + p.message
  }

  /** Parsing succeeds exactly on the payloads of that layout, with that partition. */
  lemma ParsePublishIsExact(flags: nat, payload: seq<Byte>, p: Publish)
    ensures ParsePublish(flags, payload) == Some(p) <==> IsPublish(flags, payload, p)
  {
    if ParsePublish(flags, payload) == Some(p) {
      U16RoundTrip(0, payload[..2]);
      assert U16(|p.topic|) == payload[..2];
      assert payload == payload[..2] + p.topic + p.id + p.message;
    }
    if IsPublish(flags, payload, p) {
      U16RoundTrip(|p.topic|, []);
      assert payload[0] == U16(|p.topic|)[0] && payload[1] == U16(|p.topic|)[1];
      var offset := 2 + |p.topic|;
      assert payload[2..offset] == p.topic;
      assert payload[offset..offset + |p.id|] == p.id;
      assert payload[offset + |p.id|..] == p.message;
    }
  }

  const PUBLISH: nat := 3
  const PUBACK: nat := 4
  const PACKET_ID := U16(1)

  /** What publishQoS1 sends: quality of service 1, packet id 1. */
  function PublishPacket(topic: seq<Byte>, message: seq<Byte>): Packet {
    Packet(PUBLISH, 2, Utf(topic) + PACKET_ID + message)
  }

  /** The reader recovers what the publisher built exactly for topics of at most
      65535 bytes; for longer ones the length prefix is cut and the topic is lost. */
  lemma PublishRoundTrip(topic: seq<Byte>, message: seq<Byte>)
    ensures ParsePublish(2, PublishPacket(topic, message).payload) == Some(Publish(topic, PACKET_ID, message))
        <==> |topic| <= 65535
  {
    ParsePublishIsExact(2, PublishPacket(topic, message).payload, Publish(topic, PACKET_ID, message));
  }

  function PubackPacket(id: seq<Byte>): Packet {
    Packet(PUBACK, 0, id)
  }

  /** The publisher's check of the answer it waits for. */
  predicate IsPubackForOne(p: Packet) {
    p.kind == PUBACK && |p.payload| == 2 && FromU16(p.payload) == 1
  }

  // ---- CONNECT ----

  function ConnectFlags(username: seq<Byte>, password: seq<Byte>): Byte {
    2 + (if username != [] then 128 else 0) + (if password != [] then 64 else 0)
  }

  /** strings.TrimSpace on ASCII bytes. */
  function TrimBytes(s: seq<Byte>): seq<Byte> {
    TrimRightBytes(TrimLeftBytes(s))
  }

  function TrimLeftBytes(s: seq<Byte>): seq<Byte> {
    if s != [] && IsSpaceByte(s[0]) then TrimLeftBytes(s[1..]) else s
  }

  function TrimRightBytes(s: seq<Byte>): seq<Byte> {
    if s != [] && IsSpaceByte(s[|s| - 1]) then TrimRightBytes(s[..|s| - 1]) else s
  }

  predicate IsSpaceByte(b: Byte) {
    b == 32 || 9 <= b <= 13
  }

  /** The configured client id, or a generated one when it is blank. */
  function ClientIdOf(configured: seq<Byte>, generated: seq<Byte>): seq<Byte> {
    if TrimBytes(configured) == [] then generated else TrimBytes(configured)
  }

  const PROTOCOL_NAME: seq<Byte> := [77, 81, 84, 84]

  /** Protocol name and level, flags, and a keep alive of zero. */
  function ConnectFixed(username: seq<Byte>, password: seq<Byte>): seq<Byte> {
    Utf(PROTOCOL_NAME) + [4, ConnectFlags(username, password)] + U16(0)
  }

  function Credential(s: seq<Byte>): seq<Byte> {
    if s != [] then Utf(s) else []
  }

  function ConnectPayload(clientId: seq<Byte>, username: seq<Byte>, password: seq<Byte>): seq<Byte> {
    ConnectFixed(username, password) + (Utf(clientId) + (Credential(username) + Credential(password)))
  }

  datatype Connect = Connect(clientId: seq<Byte>, username: Option<seq<Byte>>, password: Option<seq<Byte>>)

  function ParseUtf(s: seq<Byte>): Option<(seq<Byte>, seq<Byte>)> {
    if |s| < 2 || |s| < 2 + FromU16(s) then None else Some((s[2..2 + FromU16(s)], s[2 + FromU16(s)..]))
  }

  /** A field that is present only if its flag is set. */
  function ParseOptional(s: seq<Byte>, present: bool): Option<(Option<seq<Byte>>, seq<Byte>)> {
    if !present then Some((None, s))
    else match ParseUtf(s)
         case None => None
         case Some((field, rest)) => Some((Some(field), rest))
  }

  /** A receiver of CONNECT as section 3.1 of the standard describes it, for clean
      sessions without a will. A password without a user name is a violation
      (section 3.1.2.9), and nothing may follow the last field. */
  function ParseConnect(s: seq<Byte>): Option<Connect> {
    if |s| < 10 || s[..6] != Utf(PROTOCOL_NAME) || s[6] != 4 then None
    else
      var user, pass := s[7] >= 128, s[7] / 64 % 2 == 1;
      if s[7] % 64 != 2 || (pass && !user) then None
      else
        ParseFields(s[10..], user, pass)
  }

  function ParseFields(s: seq<Byte>, user: bool, pass: bool): Option<Connect> {
    match ParseUtf(s)
    case None => None
    case Some((clientId, afterId)) =>
      match ParseOptional(afterId, user)
      case None => None
      case Some((username, afterUser)) =>
        match ParseOptional(afterUser, pass)
        case None => None
        case Some((password, rest)) =>
          if rest != [] then None else Some(Connect(clientId, username, password))
  }

  lemma ParseUtfRoundTrip(s: seq<Byte>, rest: seq<Byte>)
    requires |s| <= 65535
    ensures ParseUtf(Utf(s) + rest) == Some((s, rest))
  {
    U16RoundTrip(|s|, []);
    var t := Utf(s) + rest;
    assert t[0] == U16(|s|)[0] && t[1] == U16(|s|)[1];
    assert t[2..2 + |s|] == s && t[2 + |s|..] == rest;
  }

  function Present(s: seq<Byte>): Option<seq<Byte>> {
    if s == [] then None else Some(s)
  }

  predicate Fits(clientId: seq<Byte>, username: seq<Byte>, password: seq<Byte>) {
    |clientId| <= 65535 && |username| <= 65535 && |password| <= 65535
  }

  lemma ConnectHeader(clientId: seq<Byte>, username: seq<Byte>, password: seq<Byte>)
    ensures
      var s := ConnectPayload(clientId, username, password);
      && |s| >= 10 && s[..6] == Utf(PROTOCOL_NAME) && s[6] == 4 && s[7] == ConnectFlags(username, password)
      && s[10..] == Utf(clientId) + (Credential(username) + Credential(password))
  {
    var fixed := ConnectFixed(username, password);
    assert fixed[..6] == Utf(PROTOCOL_NAME);
    Halves(fixed, Utf(clientId) + (Credential(username) + Credential(password)));
  }

  lemma Halves(a: seq<Byte>, b: seq<Byte>)
    ensures (a + b)[|a|..] == b
    ensures forall i :: 0 <= i <= |a| ==> (a + b)[..i] == a[..i]
  {
  }

  lemma CredentialParses(s: seq<Byte>, rest: seq<Byte>)
    requires |s| <= 65535
    ensures ParseOptional(Credential(s) + rest, s != []) == Some((Present(s), rest))
  {
    if s != [] {
      ParseUtfRoundTrip(s, rest);
    } else {
      NothingBefore(rest);
    }
  }

  /** The fields after the fixed part, parsed one by one. */
  lemma FieldsParse(clientId: seq<Byte>, username: seq<Byte>, password: seq<Byte>)
    requires Fits(clientId, username, password)
    ensures ParseFields(Utf(clientId) + (Credential(username) + Credential(password)), username != [], password != [])
      == Some(Connect(clientId, Present(username), Present(password)))
  {
    ParseUtfRoundTrip(clientId, Credential(username) + Credential(password));
    CredentialParses(username, Credential(password));
    assert Credential(password) + [] == Credential(password);
    CredentialParses(password, []);
  }

  lemma ConnectedFieldsFit(s: seq<Byte>)
    ensures
      match ParseConnect(s)
      case None => true
      case Some(c) =>
        && |c.clientId| <= 65535
        && (c.username.Some? ==> |c.username.value| <= 65535)
        && (c.password.Some? ==> |c.password.value| <= 65535 && c.username.Some?)
  {
  }

  lemma HeaderParses(s: seq<Byte>, username: seq<Byte>, password: seq<Byte>)
    requires !(username == [] && password != [])
    requires |s| >= 10 && s[..6] == Utf(PROTOCOL_NAME) && s[6] == 4 && s[7] == ConnectFlags(username, password)
    ensures ParseConnect(s) == ParseFields(s[10..], username != [], password != [])
  {
  }

  /** The CONNECT packet carries the client id and the credentials as configured
      exactly if each fits a length prefix and no password comes without a user name. */
  lemma {:induction false} ConnectIsUnderstood(clientId: seq<Byte>, username: seq<Byte>, password: seq<Byte>)
    ensures
      var asConfigured := Connect(clientId, Present(username), Present(password));
      ParseConnect(ConnectPayload(clientId, username, password)) == Some(asConfigured)
      <==> Fits(clientId, username, password) && !(username == [] && password != [])
  {
    var s := ConnectPayload(clientId, username, password);
    if Fits(clientId, username, password) && !(username == [] && password != []) {
      ConnectHeader(clientId, username, password);
      HeaderParses(s, username, password);
      FieldsParse(clientId, username, password);
    } else {
      ConnectedFieldsFit(s);
    }
  }
}
