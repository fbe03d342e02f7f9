/** The wire format in plain bytes: what MQTT Version 3.1.1 lays down, without the
    backend's own encoding and decoding functions on both sides. */
module MqttWire {
  import opened Base
  import opened MqttCodec
  import opened MqttSession

  // ---- Remaining Length, section 2.2.3 ----

  /** Base 128, the first digit counting ones. */
  function ValueOf(digits: seq<Byte>): nat {
    if digits == [] then 0 else digits[0] % 128 + 128 * ValueOf(digits[1..])
  }

  /** Every digit but the last has its top bit set, and the digits are those of n. */
  lemma {:induction false} EncodedDigits(n: nat)
    ensures ValueOf(EncodeLength(n)) == n
    ensures forall i :: 0 <= i < |EncodeLength(n)| ==> (EncodeLength(n)[i] >= 128 <==> i < |EncodeLength(n)| - 1)
  {
    if n >= 128 {
      EncodedDigits(n / 128);
      assert EncodeLength(n)[1..] == EncodeLength(n / 128);
      forall i | 1 <= i < |EncodeLength(n)| ensures EncodeLength(n)[i] == EncodeLength(n / 128)[i - 1] {}
    } else {
      assert [n][1..] == [];
    }
  }

  // ---- whole packets, section 2.2 ----

  /** Type and flags in one byte, the length, the payload. */
  lemma PacketBytes(p: Packet)
    requires ValidHeader(p)
    ensures
      var bytes := EncodePacket(p);
      && bytes[0] as int == 16 * p.kind + p.flags
      && |bytes| == 1 + |EncodeLength(|p.payload|)| + |p.payload|
      && bytes[|bytes| - |p.payload|..] == p.payload
  {
  }

  /** PUBACK, section 3.4: four bytes. */
  lemma PubackBytes(high: Byte, low: Byte)
    ensures EncodePacket(PubackPacket([high, low])) == [0x40, 2, high, low]
  {
  }

  /** The publisher is content with those four bytes for packet id 1, and with nothing else of that length. */
  lemma AcceptedPuback(p: Packet)
    ensures IsPubackForOne(p) <==> p.kind == 4 && p.payload == [0, 1]
  {
    if IsPubackForOne(p) {
      var high: int, low: int := p.payload[0], p.payload[1];
      assert high * 256 + low == 1;
      assert p.payload == [p.payload[0], p.payload[1]];
    }
  }

  // ---- PUBLISH, section 3.3 ----

  /** What the publisher sends: quality of service 1, packet id 1. */
  lemma PublishBytes(topic: seq<Byte>, message: seq<Byte>)
    requires |topic| <= 65535
    ensures
      var p := PublishPacket(topic, message);
      && p.payload == [|topic| / 256, |topic| % 256] + topic + [0, 1] + message
      && EncodePacket(p)[0] == 0x32
  {
  }

  /** Bit by bit: the packet id is there exactly if the quality of service is 1, 2 or 3,
      whatever the duplicate and the retain flag are. */
  lemma PublishFlags(dup: nat, qos: nat, retain: nat, topic: seq<Byte>, id: seq<Byte>, message: seq<Byte>)
    requires dup < 2 && qos < 4 && retain < 2 && |topic| <= 65535 && |id| == (if qos > 0 then 2 else 0)
    ensures ParsePublish(8 * dup + 2 * qos + retain, Utf(topic) + id + message) == Some(Publish(topic, id, message))
  {
    ParsePublishIsExact(8 * dup + 2 * qos + retain, Utf(topic) + id + message, Publish(topic, id, message));
  }

  /** The loop takes a packet for a message exactly if its type is 3 and its payload
      has the layout of a PUBLISH. */
  lemma MessagesAreOfTypeThree(p: Packet, m: Publish)
    ensures AsPublish(p) == Some(m) <==> p.kind == 3 && IsPublish(p.flags, p.payload, m)
  {
    ParsePublishIsExact(p.flags, p.payload, m);
  }

  /** What the loop notes about the handler is what the handler reported. */
  lemma {:induction false} HandlerErrorsAreKept(ps: seq<Packet>, writes: nat, fails: Message -> bool, i: nat)
    requires i < |Serve(ps, writes, fails)| && Serve(ps, writes, fails)[i].Handled?
    ensures Serve(ps, writes, fails)[i].failed <==> fails(Serve(ps, writes, fails)[i].message)
  {
    var m := AsPublish(ps[0]);
    if m.None? {
      HandlerErrorsAreKept(ps[1..], writes, fails, i);
    } else if i > 0 {
      if m.value.id == [] {
        HandlerErrorsAreKept(ps[1..], writes, fails, i - 1);
      } else if i > 1 {
        HandlerErrorsAreKept(ps[1..], writes - 2, fails, i - 2);
      }
    }
  }

  // ---- CONNECT, section 3.1 ----

  function Flag(present: bool, weight: nat): nat {
    if present then weight else 0
  }

  lemma ConnectFixedBytes(username: seq<Byte>, password: seq<Byte>)
    ensures
      var flags := 2 + Flag(username != [], 128) + Flag(password != [], 64);
      ConnectFixed(username, password) == [0, 4, 77, 81, 84, 84, 4, flags, 0, 0]
  {
    assert U16(4) == [0, 4] && U16(0) == [0, 0];
  }

  lemma FieldIsUtf(s: seq<Byte>)
    requires |s| <= 65535
    ensures Utf(s) == Field(s)
  {
  }

  /** Protocol name and level 4, a clean session with the two credential flags, no
      keep alive, then the fields with their lengths. */
  lemma ConnectBytes(clientId: seq<Byte>, username: seq<Byte>, password: seq<Byte>)
    requires Fits(clientId, username, password)
    ensures
      var flags := 2 + Flag(username != [], 128) + Flag(password != [], 64);
      var user := if username != [] then Field(username) else [];
      var pass := if password != [] then Field(password) else [];
      ConnectPayload(clientId, username, password)
          == [0, 4, 77, 81, 84, 84, 4, flags, 0, 0] + (Field(clientId) + (user + pass))
  {
    ConnectFixedBytes(username, password);
    FieldIsUtf(clientId);
    FieldIsUtf(username);
    FieldIsUtf(password);
  }

  function Field(s: seq<Byte>): seq<Byte>
    requires |s| <= 65535
  {
    [|s| / 256, |s| % 256] + s
  }

  /** The six white-space bytes. */
  predicate IsWhiteByte(b: Byte) {
    b in [0x20, 0x09, 0x0A, 0x0B, 0x0C, 0x0D]
  }

  lemma {:induction false} TrimLeftBytesCuts(s: seq<Byte>) returns (i: nat)
    ensures i <= |s| && TrimLeftBytes(s) == s[i..]
    ensures (forall k :: 0 <= k < i ==> IsWhiteByte(s[k])) && (i < |s| ==> !IsWhiteByte(s[i]))
  {
    if s != [] && IsSpaceByte(s[0]) {
      i := TrimLeftBytesCuts(s[1..]);
      i := i + 1;
    } else {
      i := 0;
    }
  }

  lemma {:induction false} TrimRightBytesCuts(s: seq<Byte>) returns (j: nat)
    ensures j <= |s| && TrimRightBytes(s) == s[..j]
    ensures (forall k :: j <= k < |s| ==> IsWhiteByte(s[k])) && (j > 0 ==> !IsWhiteByte(s[j - 1]))
  {
    if s != [] && IsSpaceByte(s[|s| - 1]) {
      j := TrimRightBytesCuts(s[..|s| - 1]);
    } else {
      j := |s|;
    }
  }

  /** Trimming cuts white space off both ends, and nothing else. */
  lemma {:induction false} TrimBytesCuts(s: seq<Byte>) returns (i: nat, j: nat)
    ensures i <= j <= |s| && TrimBytes(s) == s[i..j]
    ensures forall k :: 0 <= k < i || j <= k < |s| ==> IsWhiteByte(s[k])
    ensures i < j ==> !IsWhiteByte(s[i]) && !IsWhiteByte(s[j - 1])
  {
    i := TrimLeftBytesCuts(s);
    var n := TrimRightBytesCuts(s[i..]);
    j := i + n;
    assert s[i..][..n] == s[i..j];
    forall k | j <= k < |s| ensures IsWhiteByte(s[k]) { assert s[k] == s[i..][k - i]; }
  }

  /** The client id sent is the configured one trimmed, unless nothing is left of it. */
  lemma ClientIdIs(configured: seq<Byte>, generated: seq<Byte>)
    ensures (forall b :: b in configured ==> IsWhiteByte(b)) <==> TrimBytes(configured) == []
    ensures ClientIdOf(configured, generated) == if TrimBytes(configured) == [] then generated
        else TrimBytes(configured)
  {
    var i, j := TrimBytesCuts(configured);
    if i < j {
      assert configured[i] in configured;
    }
  }
}
