/** The subscriber's loop and the publisher over a connection: a byte sequence to
    read, a byte sequence written, and a number of writes that still succeed. */
module MqttSession {
  import opened Base
  import opened MqttCodec

  datatype Message = Message(topic: seq<Byte>, payload: seq<Byte>)

  // ---- what the loop does with a list of packets ----

  /** The handler returned from this message, with or without an error, or this
      packet id was acknowledged. */
  datatype Event = Handled(message: Message, failed: bool) | Acked(id: seq<Byte>)

  /** A well-formed PUBLISH. */
  function AsPublish(p: Packet): Option<Publish> {
    if p.kind == PUBLISH then ParsePublish(p.flags, p.payload) else None
  }

  function MessageOf(m: Publish): Message {
    Message(m.topic, m.message)
  }

  function HandledBy(fails: Message -> bool, m: Message): Event {
    Handled(m, fails(m))
  }

  /** The loop's events when writes more writes succeed; an acknowledgement takes two. */
  function Serve(ps: seq<Packet>, writes: nat, fails: Message -> bool): seq<Event> {
    if ps == [] then []
    else
      match AsPublish(ps[0])
      case None => Serve(ps[1..], writes, fails)
      case Some(m) =>
        [HandledBy(fails, MessageOf(m))] +
        if m.id == [] then Serve(ps[1..], writes, fails)
        else if writes < 2 then []
        else [Acked(m.id)] + Serve(ps[1..], writes - 2, fails)
  }

  function Output(events: seq<Event>): seq<Byte> {
    if events == [] then []
    else (if events[0].Acked? then EncodePacket(PubackPacket(events[0].id)) else []) + Output(events[1..])
  }

  // ---- the independent reference: what must be handled and acknowledged ----

  function Messages(ps: seq<Packet>): seq<Message> {
    if ps == [] then []
    else (if AsPublish(ps[0]).Some? then [MessageOf(AsPublish(ps[0]).value)] else []) + Messages(ps[1..])
  }

  /** The packet ids of the well-formed PUBLISH packets with quality of service above
      zero: bits 1 and 2 of the flags are not both zero. */
  function PacketIds(ps: seq<Packet>): seq<seq<Byte>> {
    if ps == [] then []
    else
      (if AsPublish(ps[0]).Some? && ps[0].flags % 8 >= 2 then [AsPublish(ps[0]).value.id] else [])
      + PacketIds(ps[1..])
  }

  function HandledOf(es: seq<Event>): seq<Message> {
    if es == [] then [] else (if es[0].Handled? then [es[0].message] else []) + HandledOf(es[1..])
  }

  function AckedOf(es: seq<Event>): seq<seq<Byte>> {
    if es == [] then [] else (if es[0].Acked? then [es[0].id] else []) + AckedOf(es[1..])
  }

  function AckEvents(m: Publish, writes: nat): seq<Event> {
    if m.id != [] && writes >= 2 then [Acked(m.id)] else []
  }

  /** The events of one packet. */
  function StepEvents(p: Packet, writes: nat, fails: Message -> bool): seq<Event> {
    match AsPublish(p)
    case None => []
    case Some(m) => [HandledBy(fails, MessageOf(m))] + AckEvents(m, writes)
  }

  /** The loop goes on after this packet: it needed no acknowledgement or could write it. */
  predicate GoesOn(p: Packet, writes: nat) {
    AsPublish(p).None? || AsPublish(p).value.id == [] || writes >= 2
  }

  function WritesLeft(p: Packet, writes: nat): nat {
    if AsPublish(p).Some? && AsPublish(p).value.id != [] && writes >= 2 then writes - 2 else writes
  }

  lemma ServeOne(p: Packet, ps: seq<Packet>, writes: nat, fails: Message -> bool)
    ensures Serve([p] + ps, writes, fails)
      == StepEvents(p, writes, fails) + if GoesOn(p, writes) then Serve(ps, WritesLeft(p, writes), fails) else []
  {
    assert ([p] + ps)[1..] == ps;
  }

  lemma Appended<T>(a: seq<T>, b: seq<T>, c: seq<T>)
    ensures a + (b + c) == a + b + c
    ensures a + [] == a
  {
  }

  lemma PrefixUnder<T>(a: seq<T>, b: seq<T>, c: seq<T>)
    requires b <= c
    ensures a + b <= a + c
    ensures a <= a + c
  {
  }

  lemma {:induction false} EventsSplit(a: seq<Event>, b: seq<Event>)
    ensures HandledOf(a + b) == HandledOf(a) + HandledOf(b)
    ensures AckedOf(a + b) == AckedOf(a) + AckedOf(b)
  {
    if a == [] {
      assert a + b == b;
    } else {
      EventsSplit(a[1..], b);
      assert (a + b)[0] == a[0] && (a + b)[1..] == a[1..] + b;
      Appended(if a[0].Handled? then [a[0].message] else [], HandledOf(a[1..]), HandledOf(b));
      Appended(if a[0].Acked? then [a[0].id] else [], AckedOf(a[1..]), AckedOf(b));
    }
  }

  /** One packet's share of the messages and of the ids. */
  lemma StepShares(p: Packet, writes: nat, fails: Message -> bool)
    ensures HandledOf(StepEvents(p, writes, fails)) == Messages([p])
    ensures GoesOn(p, writes) ==> AckedOf(StepEvents(p, writes, fails)) == PacketIds([p])
    ensures !GoesOn(p, writes) ==> AckedOf(StepEvents(p, writes, fails)) == []
    ensures |PacketIds([p])| <= 1 && (PacketIds([p]) == [] ==> GoesOn(p, writes) && WritesLeft(p, writes) == writes)
  {
    assert [p][1..] == [];
    var es := StepEvents(p, writes, fails);
    if AsPublish(p).Some? {
      var m := AsPublish(p).value;
      var acks := AckEvents(m, writes);
      assert es[1..] == acks && (acks != [] ==> acks[1..] == []);
      assert Messages([p][1..]) == [] && PacketIds([p][1..]) == [];
      assert HandledOf(acks) == [] && AckedOf(acks) == if acks == [] then [] else [m.id];
    }
  }

  lemma ReferenceSplits(p: Packet, ps: seq<Packet>)
    ensures Messages([p] + ps) == Messages([p]) + Messages(ps)
    ensures PacketIds([p] + ps) == PacketIds([p]) + PacketIds(ps)
  {
    assert ([p] + ps)[1..] == ps && [p][1..] == [];
  }

  /** While writes succeed, the handler sees every well-formed PUBLISH once, in
      arrival order, and exactly the ids of those with quality of service above
      zero are acknowledged, in the same order, whether or not the handler
      reports errors; sections 4.3.2 and 4.6. */
  lemma {:induction false} ServeIsComplete(ps: seq<Packet>, writes: nat, fails: Message -> bool)
    requires 2 * |PacketIds(ps)| <= writes
    ensures HandledOf(Serve(ps, writes, fails)) == Messages(ps)
    ensures AckedOf(Serve(ps, writes, fails)) == PacketIds(ps)
  {
    if ps != [] {
      var p, rest := ps[0], ps[1..];
      assert ps == [p] + rest;
      ServeOne(p, rest, writes, fails);
      StepShares(p, writes, fails);
      ReferenceSplits(p, rest);
      ServeIsComplete(rest, WritesLeft(p, writes), fails);
      EventsSplit(StepEvents(p, writes, fails), Serve(rest, WritesLeft(p, writes), fails));
    }
  }

  /** However many writes succeed, what happens is a prefix of that. */
  lemma {:induction false} ServeIsAPrefix(ps: seq<Packet>, writes: nat, fails: Message -> bool)
    ensures HandledOf(Serve(ps, writes, fails)) <= Messages(ps)
    ensures AckedOf(Serve(ps, writes, fails)) <= PacketIds(ps)
  {
    if ps != [] {
      var p, rest := ps[0], ps[1..];
      assert ps == [p] + rest;
      ServeOne(p, rest, writes, fails);
      StepShares(p, writes, fails);
      ReferenceSplits(p, rest);
      if GoesOn(p, writes) {
        ServeIsAPrefix(rest, WritesLeft(p, writes), fails);
        EventsSplit(StepEvents(p, writes, fails), Serve(rest, WritesLeft(p, writes), fails));
        PrefixUnder(Messages([p]), HandledOf(Serve(rest, WritesLeft(p, writes), fails)), Messages(rest));
        PrefixUnder(PacketIds([p]), AckedOf(Serve(rest, WritesLeft(p, writes), fails)), PacketIds(rest));
      } else {
        Appended(StepEvents(p, writes, fails), [], []);
        PrefixUnder(Messages([p]), [], Messages(rest));
      }
    }
  }

  /** The two events are those of packet k. */
  predicate AreOf(ps: seq<Packet>, k: nat, handled: Event, acked: Event) {
    && k < |ps| && AsPublish(ps[k]).Some?
    && handled.Handled? && handled.message == MessageOf(AsPublish(ps[k]).value)
        && acked == Acked(AsPublish(ps[k]).value.id)
  }

  ghost predicate Acknowledges(ps: seq<Packet>, handled: Event, acked: Event) {
    exists k: nat :: AreOf(ps, k, handled, acked)
  }

  lemma AcknowledgesLater(ps: seq<Packet>, handled: Event, acked: Event)
    requires ps != [] && Acknowledges(ps[1..], handled, acked)
    ensures Acknowledges(ps, handled, acked)
  {
    var k: nat :| AreOf(ps[1..], k, handled, acked);
    assert AreOf(ps, k + 1, handled, acked);
  }

  /** An acknowledgement comes right after the handler returned from its own
      message, and there is no other acknowledgement. */
  lemma {:induction false} AcksFollowTheirMessages(ps: seq<Packet>, writes: nat, i: nat, fails: Message -> bool)
    requires i < |Serve(ps, writes, fails)| && Serve(ps, writes, fails)[i].Acked?
    ensures i > 0 && Acknowledges(ps, Serve(ps, writes, fails)[i - 1], Serve(ps, writes, fails)[i])
  {
    var m := AsPublish(ps[0]);
    if m.None? {
      AcksFollowTheirMessages(ps[1..], writes, i, fails);
      AcknowledgesLater(ps, Serve(ps, writes, fails)[i - 1], Serve(ps, writes, fails)[i]);
    } else if m.value.id == [] {
      AcksFollowTheirMessages(ps[1..], writes, i - 1, fails);
      AcknowledgesLater(ps, Serve(ps, writes, fails)[i - 1], Serve(ps, writes, fails)[i]);
    } else if i > 1 {
      AcksFollowTheirMessages(ps[1..], writes - 2, i - 2, fails);
      AcknowledgesLater(ps, Serve(ps, writes, fails)[i - 1], Serve(ps, writes, fails)[i]);
    } else {
      assert AreOf(ps, 0, Serve(ps, writes, fails)[0], Serve(ps, writes, fails)[1]);
    }
  }

  // ---- the connection ----

  datatype ReadError = UnexpectedEof | MalformedLength

  class Connection {
    var incoming: seq<Byte>
    var outgoing: seq<Byte>
    var writes: nat

    constructor (incoming: seq<Byte>, writes: nat)
      ensures this.incoming == incoming && outgoing == [] && this.writes == writes
    {
      this.incoming, outgoing, this.writes := incoming, [], writes;
    }

    /** io.ReadFull: a short read consumes what there was. */
    method ReadFull(n: nat) returns (data: Option<seq<Byte>>)
      modifies this`incoming
      ensures n <= |old(incoming)| ==> data == Some(old(incoming)[..n]) && incoming == old(incoming)[n..]
      ensures n > |old(incoming)| ==> data == None && incoming == []
    {
      if n <= |incoming| {
        data, incoming := Some(incoming[..n]), incoming[n..];
      } else {
        data, incoming := None, [];
      }
    }

    method Write(data: seq<Byte>) returns (ok: bool)
      modifies this`outgoing, this`writes
      ensures ok == (old(writes) > 0)
      ensures ok ==> outgoing == old(outgoing) + data && writes == old(writes) - 1
      ensures !ok ==> outgoing == old(outgoing) && writes == old(writes)
    {
      ok := writes > 0;
      if ok {
        outgoing, writes := outgoing + data, writes - 1;
      }
    }
  }

  // ---- the codec, in place ----

  lemma EncodeStep(n: nat)
    ensures EncodeLength(n)
        == [if n / 128 > 0 then n % 128 + 128 else n % 128] + if n / 128 > 0 then EncodeLength(n / 128) else []
  {
    if n < 128 {
      assert [n] + [] == [n];
    }
  }

  method EncodeRemainingLength(length: nat) returns (encoded: seq<Byte>)
    ensures encoded == EncodeLength(length)
  {
    encoded := [];
    var rest := length;
    while true
      invariant encoded + EncodeLength(rest) == EncodeLength(length)
      decreases rest
    {
      EncodeStep(rest);
      var digit: int := rest % 128;
      rest := rest / 128;
      if rest > 0 {
        digit := digit + 128;
      }
      Appended(encoded, [digit], if rest > 0 then EncodeLength(rest) else []);
      encoded := encoded + [digit];
      if rest == 0 {
        return encoded;
      }
    }
  }

  /** A partial reading: value so far, and the weight of what is still to come. */
  function Continued(tail: Reading<nat>, value: nat, multiplier: nat): Reading<nat> {
    match tail
    case Read(v, rest) => Read(value + multiplier * v, rest)
    case Truncated => Truncated
    case Malformed => Malformed
  }

  lemma ContinuedStep(s: seq<Byte>, k: nat, value: nat, multiplier: nat)
    requires k > 0 && s != [] && s[0] >= 128
    ensures Continued(DecodeLength(s, k), value, multiplier)
      == Continued(DecodeLength(s[1..], k - 1), value + (s[0] - 128) * multiplier, multiplier * 128)
  {
    if DecodeLength(s[1..], k - 1).Read? {
      var v := DecodeLength(s[1..], k - 1).value;
      assert multiplier * (s[0] - 128 + 128 * v) == (s[0] - 128) * multiplier + multiplier * 128 * v;
    }
  }

  lemma ContinuedEnd(s: seq<Byte>, k: nat, value: nat, multiplier: nat)
    requires k > 0 && s != [] && s[0] < 128
    ensures Continued(DecodeLength(s, k), value, multiplier) == Read(value + s[0] * multiplier, s[1..])
  {
  }

  /** Reads up to four digits, accumulating value with a growing multiplier. */
  method ReadRemainingLength(conn: Connection) returns (r: Result<nat, ReadError>)
    modifies conn`incoming
    ensures
      match DecodeLength(old(conn.incoming), 4)
      case Read(n, rest) => r == Success(n) && conn.incoming == rest
      case Truncated => r == Failure(UnexpectedEof)
      case Malformed => r == Failure(MalformedLength)
  {
    var multiplier: nat := 1;
    var value: nat := 0;
    ghost var target := DecodeLength(conn.incoming, 4);
    for i := 0 to 4
      invariant target == Continued(DecodeLength(conn.incoming, 4 - i), value, multiplier)
    {
      ghost var before := conn.incoming;
      var digit := conn.ReadFull(1);
      if digit.None? {
        return Failure(UnexpectedEof);
      }
      var d: int := digit.value[0];
      assert d == before[0] && conn.incoming == before[1..];
      if d < 128 {
        ContinuedEnd(before, 4 - i, value, multiplier);
      } else {
        ContinuedStep(before, 4 - i, value, multiplier);
      }
      value := value + LowBits(d) * multiplier;
      if d < 128 {
        return Success(value);
      }
      multiplier := multiplier * 128;
    }
    r := Failure(MalformedLength);
  }

  /** The digit without its top bit. */
  function LowBits(d: Byte): (r: nat)
    ensures r == if d < 128 then d else d - 128
  {
    d % 128
  }

  method WritePacket(conn: Connection, kind: nat, flags: nat, payload: seq<Byte>) returns (ok: bool)
    requires kind < 16 && flags < 16
    modifies conn`outgoing, conn`writes
    ensures ok == (old(conn.writes) >= 2)
    ensures
      var p := Packet(kind, flags, payload);
      if ok then conn.outgoing == old(conn.outgoing) + EncodePacket(p) && conn.writes == old(conn.writes) - 2
      else conn.writes == 0
           && conn.outgoing == old(conn.outgoing) + if old(conn.writes) == 1 then EncodeHeader(p) else []
  {
    var header: seq<Byte> := [kind * 16 + flags];
    var length := EncodeRemainingLength(|payload|);
    header := header + length;
    Appended(conn.outgoing, header, payload);
    ok := conn.Write(header);
    if !ok {
      return false;
    }
    ok := conn.Write(payload);
  }

  method ReadPacket(conn: Connection) returns (r: Result<Packet, ReadError>)
    modifies conn`incoming
    ensures
      match DecodePacket(old(conn.incoming))
      case Read(p, rest) => r == Success(p) && conn.incoming == rest
      case Truncated => r == Failure(UnexpectedEof)
      case Malformed => r == Failure(MalformedLength)
  {
    ghost var s := conn.incoming;
    var first := conn.ReadFull(1);
    if first.None? {
      return Failure(UnexpectedEof);
    }
    assert s[..1][0] == s[0];
    var length := ReadRemainingLength(conn);
    if length.Failure? {
      return Failure(length.error);
    }
    var payload := conn.ReadFull(length.value);
    if payload.None? {
      return Failure(UnexpectedEof);
    }
    r := Success(Packet(first.value[0] / 16, first.value[0] % 16, payload.value));
  }

  /** Stays in bounds on every input. */
  method ParsePublishPayload(flags: nat, payload: seq<Byte>) returns (r: Option<Publish>)
    ensures r == ParsePublish(flags, payload)
  {
    if |payload| < 2 {
      return None;
    }
    assert payload[..2][0] == payload[0] && payload[..2][1] == payload[1];
    var topicLength := FromU16(payload[..2]);
    if |payload| < 2 + topicLength {
      return None;
    }
    var topic := payload[2..2 + topicLength];
    var offset := 2 + topicLength;
    var packetId: seq<Byte> := [];
    if QoS(flags) > 0 {
      if |payload| < offset + 2 {
        return None;
      }
      packetId := payload[offset..offset + 2];
      offset := offset + 2;
    }
    assert packetId == payload[2 + topicLength..offset];
    r := Some(Publish(topic, packetId, payload[offset..]));
  }

  // ---- the loop and the publisher ----

  lemma {:induction false} OutputSplits(a: seq<Event>, b: seq<Event>)
    ensures Output(a + b) == Output(a) + Output(b)
  {
    if a == [] {
      assert a + b == b;
    } else {
      OutputSplits(a[1..], b);
      assert (a + b)[0] == a[0] && (a + b)[1..] == a[1..] + b;
      Appended(if a[0].Acked? then EncodePacket(PubackPacket(a[0].id)) else [], Output(a[1..]), Output(b));
    }
  }

  /** The subscriber's loop, until the connection fails. fails says on which
      messages the handler reports an error. The error is None when a write failed. */
  method ReadLoop(conn: Connection, fails: Message -> bool) returns (events: seq<Event>, error: Option<ReadError>)
    modifies conn
    ensures events == Serve(DecodeStream(old(conn.incoming)).0, old(conn.writes), fails)
    ensures error.Some? ==> conn.outgoing == old(conn.outgoing) + Output(events)
    ensures error.None? ==> conn.writes == 0 && old(conn.outgoing) + Output(events) <= conn.outgoing
  {
    events := [];
    ghost var todo := DecodeStream(conn.incoming).0;
    ghost var all := Serve(todo, conn.writes, fails);
    while true
      invariant todo == DecodeStream(conn.incoming).0
      invariant all == events + Serve(todo, conn.writes, fails)
      invariant conn.outgoing == old(conn.outgoing) + Output(events)
      decreases |conn.incoming|
    {
      var read := ReadPacketOf(conn, todo);
      if read.Failure? {
        return events, Some(read.error);
      }
      var packet := read.value;
      todo := todo[1..];
      ServeOne(packet, todo, conn.writes, fails);
      ghost var step := StepEvents(packet, conn.writes, fails);
      OutputSplits(events, step);
      Appended(old(conn.outgoing), Output(events), Output(step));
      var ok, es := ServePacket(conn, fails, packet);
      Appended(events, step, if ok then Serve(todo, conn.writes, fails) else []);
      events := events + es;
      if !ok {
        return events, None;
      }
    }
  }

  /** One round of the loop after a packet was read. */
  method ServePacket(conn: Connection, fails: Message -> bool, packet: Packet) returns (ok: bool, es: seq<Event>)
    modifies conn`outgoing, conn`writes
    ensures es == StepEvents(packet, old(conn.writes), fails) && ok == GoesOn(packet, old(conn.writes))
    ensures ok ==>
      conn.outgoing == old(conn.outgoing) + Output(es) && conn.writes == WritesLeft(packet, old(conn.writes))
    ensures !ok ==> conn.writes == 0 && Output(es) == [] && old(conn.outgoing) <= conn.outgoing
  {
    ok, es := true, [];
    if packet.kind != PUBLISH {
      return;
    }
    var publish := ParsePublishPayload(packet.flags, packet.payload);
    if publish.None? {
      return;
    }
    var message := Message(publish.value.topic, publish.value.message);
    var failed := fails(message);
    var acked: seq<Event> := [];
    if |publish.value.id| == 2 {
      ok := WritePacket(conn, PUBACK, 0, publish.value.id);
      if ok {
        acked := [Acked(publish.value.id)];
      }
    }
    AckOutput(Handled(message, failed), acked);
    es := [Handled(message, failed)] + acked;
  }

  lemma AckOutput(handled: Event, acked: seq<Event>)
    requires handled.Handled?
    ensures Output([handled] + acked) == Output(acked)
    ensures |acked| == 1 && acked[0].Acked? ==> Output(acked) == EncodePacket(PubackPacket(acked[0].id))
    ensures Output([]) == []
  {
    assert ([handled] + acked)[1..] == acked;
    if |acked| == 1 {
      assert acked[1..] == [];
    }
  }

  lemma OutputOne(events: seq<Event>, e: Event)
    ensures Output(events + [e]) == Output(events) + if e.Acked? then EncodePacket(PubackPacket(e.id)) else []
  {
    OutputSplits(events, [e]);
    assert Output([e][1..]) == [];
  }

  /** ReadPacket, seen from the packets that are still to come. */
  method ReadPacketOf(conn: Connection, ghost todo: seq<Packet>) returns (r: Result<Packet, ReadError>)
    requires todo == DecodeStream(conn.incoming).0
    modifies conn`incoming
    ensures r.Failure? ==> todo == []
    ensures r.Success? ==>
      && todo != [] && todo == [r.value] + todo[1..]
      && todo[1..] == DecodeStream(conn.incoming).0 && |conn.incoming| < |old(conn.incoming)|
  {
    ghost var s := conn.incoming;
    r := ReadPacket(conn);
    if r.Success? {
      DecodePacketShrinks(s);
      StreamStep(s, r.value, conn.incoming);
    }
  }

  method WriteUtf(buffer: seq<Byte>, value: seq<Byte>) returns (r: seq<Byte>)
    ensures r == buffer + Utf(value)
  {
    r := buffer + U16(|value|);
    r := r + value;
  }

  /** Sends a PUBLISH and waits for one packet: it succeeds exactly if that packet
      is the acknowledgement of id 1. */
  method PublishQoS1(conn: Connection, topic: seq<Byte>, message: seq<Byte>) returns (ok: bool)
    modifies conn
    ensures old(conn.writes) >= 2 ==> conn.outgoing == old(conn.outgoing) + EncodePacket(PublishPacket(topic, message))
    ensures ok <==>
      && old(conn.writes) >= 2
      && DecodePacket(old(conn.incoming)).Read? && IsPubackForOne(DecodePacket(old(conn.incoming)).value)
  {
    var packet := WriteUtf([], topic);
    packet := packet + U16(1);
    packet := packet + message;
    assert packet == PublishPacket(topic, message).payload;
    ok := WritePacket(conn, PUBLISH, 2, packet);
    if !ok {
      return false;
    }
    var response := ReadPacket(conn);
    if response.Failure? {
      return false;
    }
    ok := response.value.kind == PUBACK && |response.value.payload| == 2 && FromU16(response.value.payload) == 1;
  }

  /** The variable header, then the payload. */
  method BuildConnect(clientId: seq<Byte>, username: seq<Byte>, password: seq<Byte>) returns (r: seq<Byte>)
    ensures r == ConnectPayload(clientId, username, password)
  {
    var header := WriteUtf([], PROTOCOL_NAME);
    NothingBefore(Utf(PROTOCOL_NAME));
    var flags: int := 2;
    if username != [] {
      flags := flags + 128;
    }
    if password != [] {
      flags := flags + 64;
    }
    header := header + [4, flags] + U16(0);

    var payload := WriteUtf([], clientId);
    NothingBefore(Utf(clientId));
    Appended(payload, Credential(username), Credential(password));
    if username != [] {
      payload := WriteUtf(payload, username);
    }
    if password != [] {
      payload := WriteUtf(payload, password);
    }
    r := header + payload;
  }

  /** connect: CONNECT out, and a CONNACK with return code zero back. */
  method SendConnect(conn: Connection, configuredId: seq<Byte>, generatedId: seq<Byte>, username: seq<Byte>,
      password: seq<Byte>)
    returns (ok: bool)
    modifies conn
    ensures old(conn.writes) >= 2 ==>
      var payload := ConnectPayload(ClientIdOf(configuredId, generatedId), username, password);
      conn.outgoing == old(conn.outgoing) + EncodePacket(Packet(1, 0, payload))
    ensures ok <==>
      && old(conn.writes) >= 2 && DecodePacket(old(conn.incoming)).Read?
      && var p := DecodePacket(old(conn.incoming)).value;
         p.kind == 2 && |p.payload| >= 2 && p.payload[1] == 0
  {
    var clientId := TrimBytes(configuredId);
    if clientId == [] {
      clientId := generatedId;
    }
    var payload := BuildConnect(clientId, username, password);
    ok := WritePacket(conn, 1, 0, payload);
    if !ok {
      return false;
    }
    var response := ReadPacket(conn);
    if response.Failure? {
      return false;
    }
    ok := response.value.kind == 2 && |response.value.payload| >= 2 && response.value.payload[1] == 0;
  }

  // ---- end to end ----

  function Pubacks(ids: seq<seq<Byte>>): (ps: seq<Packet>)
    ensures |ps| == |ids| && forall i :: 0 <= i < |ids| ==> ps[i] == PubackPacket(ids[i])
  {
    if ids == [] then [] else [PubackPacket(ids[0])] + Pubacks(ids[1..])
  }

  predicate AreIds(ids: seq<seq<Byte>>) {
    forall i :: 0 <= i < |ids| ==> |ids[i]| == 2
  }

  lemma {:induction false} PacketIdsAreIds(ps: seq<Packet>)
    ensures AreIds(PacketIds(ps))
  {
    if ps != [] {
      PacketIdsAreIds(ps[1..]);
    }
  }

  /** The bytes written are the encodings of the acknowledgements, one after the other. */
  lemma {:induction false} OutputIsPubacks(events: seq<Event>)
    requires AreIds(AckedOf(events))
    ensures AllValid(Pubacks(AckedOf(events))) && Output(events) == EncodeStream(Pubacks(AckedOf(events)))
  {
    if events != [] {
      var ids, rest := AckedOf(events), AckedOf(events[1..]);
      if events[0].Acked? {
        assert ids[1..] == rest;
        forall i | 0 <= i < |rest| ensures |rest[i]| == 2 { assert rest[i] == ids[i + 1]; }
        OutputIsPubacks(events[1..]);
        assert Pubacks(ids)[1..] == Pubacks(rest);
      } else {
        assert ids == rest;
        OutputIsPubacks(events[1..]);
      }
    }
  }

  /** On the encoding of any list of packets the loop behaves as on the list itself:
      it handles and acknowledges what the list demands, and what the other side
      reads back is exactly the acknowledgements, with no bytes left. */
  lemma LoopSeesThePackets(ps: seq<Packet>, writes: nat, fails: Message -> bool)
    requires AllValid(ps) && 2 * |PacketIds(ps)| <= writes
    ensures
      var events := Serve(DecodeStream(EncodeStream(ps)).0, writes, fails);
      && HandledOf(events) == Messages(ps) && AckedOf(events) == PacketIds(ps)
      && DecodeStream(Output(events)) == (Pubacks(PacketIds(ps)), [])
  {
    FramingIsUnique(ps, ps);
    ServeIsComplete(ps, writes, fails);
    PacketIdsAreIds(ps);
    OutputIsPubacks(Serve(ps, writes, fails));
    FramingIsUnique(Pubacks(PacketIds(ps)), Pubacks(PacketIds(ps)));
  }

  /** What the publisher sends reaches the handler unchanged, and the subscriber's
      answer to it is a packet the publisher accepts. */
  lemma PublishAndAcknowledge(topic: seq<Byte>, message: seq<Byte>, writes: nat, fails: Message -> bool)
    requires |topic| <= 65535 && |PublishPacket(topic, message).payload| <= MAX_REMAINING_LENGTH && writes >= 2
    ensures
      var events := Serve(DecodeStream(EncodePacket(PublishPacket(topic, message))).0, writes, fails);
      && events == [HandledBy(fails, Message(topic, message)), Acked(PACKET_ID)]
      && DecodePacket(Output(events)) == Read(PubackPacket(PACKET_ID), [])
      && IsPubackForOne(PubackPacket(PACKET_ID))
  {
    var p := PublishPacket(topic, message);
    OnePacketStream(p);
    PublishRoundTrip(topic, message);
    assert AsPublish(p) == Some(Publish(topic, PACKET_ID, message));
    assert Serve([p][1..], writes - 2, fails) == [];
    assert Serve([p], writes, fails) == [HandledBy(fails, Message(topic, message)), Acked(PACKET_ID)];
    AnswerIsAccepted(HandledBy(fails, Message(topic, message)));
  }

  lemma OnePacketStream(p: Packet)
    requires ValidPacket(p)
    ensures DecodeStream(EncodePacket(p)) == ([p], [])
  {
    FramingIsUnique([p], [p]);
    assert EncodeStream([p][1..]) == [];
    assert EncodeStream([p]) == EncodePacket(p);
  }

  lemma AnswerIsAccepted(handled: Event)
    requires handled.Handled?
    ensures
      var events := [handled, Acked(PACKET_ID)];
      DecodePacket(Output(events)) == Read(PubackPacket(PACKET_ID), []) && IsPubackForOne(PubackPacket(PACKET_ID))
  {
    OutputOne([], handled);
    OutputOne([handled], Acked(PACKET_ID));
    assert [] + [handled] == [handled] && [handled] + [Acked(PACKET_ID)] == [handled, Acked(PACKET_ID)];
    var answer := EncodePacket(PubackPacket(PACKET_ID));
    assert Output([]) == [] && [] + answer == answer && answer + [] == answer;
    PacketRoundTrip(PubackPacket(PACKET_ID), []);
  }
}
