/** The four cluster packets on the wire: what is sent, what a receiver makes of any byte stream. */
module Packets {
  import opened VprTypes
  import opened PacketBytes

  const RIM_PACKET: Uint16 := 400
  const RIM_DATA_PACKET: Uint16 := 401
  const RIM_DEVICE_ACK: Uint16 := 403
  const RIM_END_BLOCK: Uint16 := 410
  const CONFIG_PACKET: Uint16 := 412
  const RIM_PACKET_HEAD_SIZE := 12

  // The fields a packet transmits.
  datatype Packet =
    | Config(config: Text, change: Uint16)
    | DeviceAck(pluginId: Guid, id: Guid, deviceName: Text, deviceBaseType: Text, hostname: Text, ack: bool)
    | EndBlock(temp: Uint16)
    | Data(pluginId: Guid, objectId: Guid, content: Bytes)

  datatype Header = Header(code: Uint16, kind: Uint16, frame: Uint32, length: Uint32)

  datatype Message = Message(frame: Uint32, packet: Packet)

  // EndBlock(frameNum): the header keeps the number, the body only its low 16 bits.
  function EndBlockMessage(frameNum: Uint32): Message {
    Message(frameNum, EndBlock(frameNum % UINT16))
  }

  function Kind(p: Packet): Uint16 {
    match p
    case Config(_, _) => CONFIG_PACKET
    case DeviceAck(_, _, _, _, _, _) => RIM_DEVICE_ACK
    case EndBlock(_) => RIM_END_BLOCK
    case Data(_, _, _) => RIM_DATA_PACKET
  }

  predicate Registered(kind: Uint16) {
    kind == CONFIG_PACKET || kind == RIM_DEVICE_ACK || kind == RIM_END_BLOCK || kind == RIM_DATA_PACKET
  }

  // ---- Sending ----

  function HeaderBytes(h: Header): (b: Bytes)
    ensures |b| == RIM_PACKET_HEAD_SIZE
  {
    Uint16Bytes(h.code) + (Uint16Bytes(h.kind) + (Uint32Bytes(h.frame) + Uint32Bytes(h.length)))
  }

  function Body(p: Packet): Bytes {
    match p
    case Config(config, change) => TextBytes(config) + Uint16Bytes(change)
    case DeviceAck(pluginId, id, deviceName, deviceBaseType, hostname, ack) =>
      GuidBytes(pluginId) + (GuidBytes(id) + (TextBytes(deviceName)
        + (TextBytes(deviceBaseType) + (TextBytes(hostname) + BoolBytes(ack)))))
    case EndBlock(temp) => Uint16Bytes(temp)
    case Data(pluginId, objectId, content) => GuidBytes(pluginId) + (GuidBytes(objectId) + content)
  }

  function Size(p: Packet): nat {
    RIM_PACKET_HEAD_SIZE + |Body(p)|
  }

  function HeaderOf(m: Message): Header {
    Header(RIM_PACKET, Kind(m.packet), m.frame, Size(m.packet) % UINT32)
  }

  // The buffer after serialize.
  function Frame(m: Message): (b: Bytes)
    ensures |b| == Size(m.packet)
  {
    HeaderBytes(HeaderOf(m)) + Body(m.packet)
  }

  // Node::send takes as many bytes as the header says.
  function Sent(m: Message): Bytes {
    Frame(m)[..HeaderOf(m).length]
  }

  function SentAll(ms: seq<Message>): Bytes {
    if ms == [] then [] else Sent(ms[0]) + SentAll(ms[1..])
  }

  // Where the header fields lie on the wire: code, type, frame number, length, each most significant byte first.
  lemma HeaderLayout(m: Message)
    requires Fits(m)
    ensures var s := Sent(m);
            && |s| == Size(m.packet)
            && s[0] as int * 0x100 + s[1] == 400
            && s[2] as int * 0x100 + s[3] == Kind(m.packet)
            && ((s[4] as int * 0x100 + s[5]) * 0x100 + s[6]) * 0x100 + s[7] == m.frame
            && ((s[8] as int * 0x100 + s[9]) * 0x100 + s[10]) * 0x100 + s[11] == |s|
            && s[12..] == Body(m.packet)
  {
    hide Body;
    var h := HeaderOf(m);
    assert Sent(m) == HeaderBytes(h) + Body(m.packet);
    assert HeaderBytes(h)[4..8] == Uint32Bytes(h.frame) && HeaderBytes(h)[8..] == Uint32Bytes(h.length);
  }

  predicate Fits(m: Message) {
    Size(m.packet) < UINT32
  }

  // ---- Receiving ----

  // Blocked: the socket has not delivered enough bytes yet.
  datatype Outcome = Done(message: Message) | Blocked | BadCode | UnknownType | BadBody(overrun: bool)

  function ReadHeader(s: Bytes): Parsed<Header> {
    var (code, s) :- ReadUint16(s);
    var (kind, s) :- ReadUint16(s);
    var (frame, s) :- ReadUint32(s);
    var (length, s) :- ReadUint32(s);
    Ok(Header(code, kind, frame, length), s)
  }

  function ParseConfig(body: Bytes): Parsed<Packet> {
    var (config, s) :- ReadString(body);
    var (change, s) :- ReadUint16(s);
    Ok(Config(config, change), s)
  }

  function ParseDeviceAck(body: Bytes): Parsed<Packet> {
    var (pluginId, s) :- ReadGuid(body);
    var (id, s) :- ReadGuid(s);
    var (deviceName, s) :- ReadString(s);
    var (deviceBaseType, s) :- ReadString(s);
    var (hostname, s) :- ReadString(s);
    var (ack, s) :- ReadBool(s);
    Ok(DeviceAck(pluginId, id, deviceName, deviceBaseType, hostname, ack), s)
  }

  function ParseEndBlock(body: Bytes): Parsed<Packet> {
    var (temp, s) :- ReadUint16(body);
    Ok(EndBlock(temp), s)
  }

  // The bytes behind the two GUIDs stay in the buffer for the object itself.
  function ParseData(body: Bytes): Parsed<Packet> {
    var (pluginId, s) :- ReadGuid(body);
    var (objectId, s) :- ReadGuid(s);
    Ok(Data(pluginId, objectId, s), [])
  }

  // The fields of a packet after parse(), which assigns each as soon as it is read: when reading ends early,
  // the fields before that hold new values and the others what they held.
  function ConfigAfter(p: Packet, body: Bytes): Packet
    requires p.Config?
  {
    var a := ReadString(body);
    if !a.Ok? then p
    else
      var b := ReadUint16(a.rest);
      if !b.Ok? then p.(config := a.value) else p.(config := a.value, change := b.value)
  }

  function DeviceAckAfter(p: Packet, body: Bytes): Packet
    requires p.DeviceAck?
  {
    var a := ReadGuid(body);
    var p := DeviceAck(GuidAfter(p.pluginId, body), p.id, p.deviceName, p.deviceBaseType, p.hostname, p.ack);
    if !a.Ok? then p
    else
      var b := ReadGuid(a.rest);
      var p := p.(id := GuidAfter(p.id, a.rest));
      if !b.Ok? then p
      else
        var c := ReadString(b.rest);
        if !c.Ok? then p
        else
          var p := p.(deviceName := c.value);
          var d := ReadString(c.rest);
          if !d.Ok? then p
          else
            var p := p.(deviceBaseType := d.value);
            var e := ReadString(d.rest);
            if !e.Ok? then p
            else
              var p := p.(hostname := e.value);
              var f := ReadBool(e.rest);
              if !f.Ok? then p else p.(ack := f.value)
  }

  function DataAfter(p: Packet, body: Bytes): Packet
    requires p.Data?
  {
    var a := ReadGuid(body);
    var p := Data(GuidAfter(p.pluginId, body), p.objectId, p.content);
    if !a.Ok? then p
    else
      var b := ReadGuid(a.rest);
      Data(p.pluginId, GuidAfter(p.objectId, a.rest), if b.Ok? then b.rest else p.content)
  }

  // parse() of the packet class the factory made for this type.
  function Parse(kind: Uint16, body: Bytes): Parsed<Packet>
    requires Registered(kind)
  {
    if kind == CONFIG_PACKET then ParseConfig(body)
    else if kind == RIM_DEVICE_ACK then ParseDeviceAck(body)
    else if kind == RIM_END_BLOCK then ParseEndBlock(body)
    else ParseData(body)
  }

  // Node::recvPacket on the bytes the socket has delivered, and the bytes it leaves there.
  function Receive(s: Bytes): (r: (Outcome, Bytes))
    ensures r.0.Done? ==> |r.1| < |s|
  {
    if |s| < RIM_PACKET_HEAD_SIZE then (Blocked, s) else ReceiveBody(HeaderAt(s), s[RIM_PACKET_HEAD_SIZE..])
  }

  function HeaderAt(s: Bytes): Header
    requires |s| >= RIM_PACKET_HEAD_SIZE
  {
    ReadHeader(s[..RIM_PACKET_HEAD_SIZE]).value
  }

  function ReceiveBody(h: Header, s: Bytes): (Outcome, Bytes) {
    if h.code != RIM_PACKET then (BadCode, s)
    else if !Registered(h.kind) then (UnknownType, s)
    else
      var n := (h.length - RIM_PACKET_HEAD_SIZE) % UINT32;
      if |s| < n then (Blocked, s)
      else
        match Parse(h.kind, s[..n])
        case Ok(p, _) => (Done(Message(h.frame, p)), s[n..])
        case Eof => (BadBody(false), s[n..])
        case Overrun => (BadBody(true), s[n..])
  }

  // Packets are received until the stream blocks or an exception ends it.
  function ReceiveAll(s: Bytes): (seq<Message>, Bytes)
    decreases |s|
  {
    var (outcome, rest) := Receive(s);
    if outcome.Done? then
      var (ms, left) := ReceiveAll(rest);
      ([outcome.message] + ms, left)
    else ([], s)
  }

  // ---- One packet there and back ----

  lemma HeaderBack(h: Header)
    ensures ReadHeader(HeaderBytes(h)) == Ok(h, [])
  {
    var s3 := Uint32Bytes(h.length);
    var s2 := Uint32Bytes(h.frame) + s3;
    var s1 := Uint16Bytes(h.kind) + s2;
    Uint16Back(h.code, s1);
    Uint16Back(h.kind, s2);
    Uint32Back(h.frame, s3);
    Uint32Back(h.length, []);
    assert s3 + [] == s3;
  }

  lemma BodyBack(p: Packet)
    ensures Parse(Kind(p), Body(p)) == Ok(p, [])
  {
    hide Uint16Bytes, GuidBytes, TextBytes, BoolBytes, ReadUint16, ReadGuid, ReadString, ReadBool;
    match p
    case Config(config, change) =>
      TextBack(config, Uint16Bytes(change));
      Uint16Back(change, []);
      assert Uint16Bytes(change) + [] == Uint16Bytes(change);
    case DeviceAck(pluginId, id, deviceName, deviceBaseType, hostname, ack) =>
      var s4 := TextBytes(hostname) + BoolBytes(ack);
      var s3 := TextBytes(deviceBaseType) + s4;
      var s2 := TextBytes(deviceName) + s3;
      GuidBack(pluginId, GuidBytes(id) + s2);
      GuidBack(id, s2);
      TextBack(deviceName, s3);
      TextBack(deviceBaseType, s4);
      TextBack(hostname, BoolBytes(ack));
      BoolBack(ack, []);
      assert BoolBytes(ack) + [] == BoolBytes(ack);
    case EndBlock(temp) =>
      Uint16Back(temp, []);
      assert Uint16Bytes(temp) + [] == Uint16Bytes(temp);
    case Data(pluginId, objectId, content) =>
      GuidBack(pluginId, GuidBytes(objectId) + content);
      GuidBack(objectId, content);
  }

  lemma ReceiveSent(m: Message, rest: Bytes)
    requires Fits(m)
    ensures Receive(Sent(m) + rest) == (Done(m), rest)
  {
    hide HeaderBytes, Body, HeaderAt, ParseConfig, ParseDeviceAck, ParseEndBlock, ParseData;
    var h, b := HeaderOf(m), Body(m.packet);
    assert Sent(m) + rest == HeaderBytes(h) + (b + rest);
    HeaderAtFront(h, b + rest);
    BodyBack(m.packet);
    assert (b + rest)[..|b|] == b && (b + rest)[|b|..] == rest;
  }

  lemma HeaderAtFront(h: Header, rest: Bytes)
    ensures var s := HeaderBytes(h) + rest;
            HeaderAt(s) == h && s[RIM_PACKET_HEAD_SIZE..] == rest
  {
    var s := HeaderBytes(h) + rest;
    assert s[..RIM_PACKET_HEAD_SIZE] == HeaderBytes(h);
    HeaderBack(h);
  }

  // A packet that has not arrived whole is waited for.
  lemma PrefixBlocks(m: Message, k: nat)
    requires Fits(m) && k < |Sent(m)|
    ensures Receive(Sent(m)[..k]).0 == Blocked
  {
    hide HeaderBytes, Body, HeaderAt, Parse;
    if k >= RIM_PACKET_HEAD_SIZE {
      var h, b := HeaderOf(m), Body(m.packet);
      assert Sent(m)[..k] == HeaderBytes(h) + b[..k - RIM_PACKET_HEAD_SIZE];
      HeaderAtFront(h, b[..k - RIM_PACKET_HEAD_SIZE]);
    }
  }

  // ---- Whole streams ----

  // Any packets, followed by the beginning of one more: exactly those packets come out.
  lemma {:induction false} StreamRoundTrip(ms: seq<Message>, next: Message, k: nat)
    requires forall i :: 0 <= i < |ms| ==> Fits(ms[i])
    requires Fits(next) && k < |Sent(next)|
    ensures ReceiveAll(SentAll(ms) + Sent(next)[..k]) == (ms, Sent(next)[..k])
    decreases |ms|
  {
    hide Sent, Fits;
    var tail := Sent(next)[..k];
    if ms == [] {
      PrefixBlocks(next, k);
      assert SentAll(ms) + tail == tail;
    } else {
      var rest := SentAll(ms[1..]) + tail;
      assert SentAll(ms) + tail == Sent(ms[0]) + rest;
      ReceiveSent(ms[0], rest);
      StreamRoundTrip(ms[1..], next, k);
      assert [ms[0]] + ms[1..] == ms;
    }
  }

  lemma EndBlockFits(frameNum: Uint32)
    ensures Fits(EndBlockMessage(frameNum)) && |Sent(EndBlockMessage(frameNum))| == RIM_PACKET_HEAD_SIZE + 2
  {
    hide HeaderBytes, Uint16Bytes;
  }

  lemma StreamBack(ms: seq<Message>)
    requires forall i :: 0 <= i < |ms| ==> Fits(ms[i])
    ensures ReceiveAll(SentAll(ms)) == (ms, [])
  {
    hide ReceiveAll, SentAll, Sent, Fits, EndBlockMessage;
    var any := EndBlockMessage(0);
    EndBlockFits(0);
    StreamRoundTrip(ms, any, 0);
    assert SentAll(ms) + Sent(any)[..0] == SentAll(ms);
  }

  lemma UniqueDecoding(ms: seq<Message>, ns: seq<Message>)
    requires forall i :: 0 <= i < |ms| ==> Fits(ms[i])
    requires forall i :: 0 <= i < |ns| ==> Fits(ns[i])
    ensures SentAll(ms) == SentAll(ns) ==> ms == ns
  {
    hide *;
    StreamBack(ms);
    StreamBack(ns);
  }

  // What was received stays received when more bytes arrive.
  lemma ReceiveMonotone(s: Bytes, t: Bytes)
    requires Receive(s).0.Done?
    ensures Receive(s + t) == (Receive(s).0, Receive(s).1 + t)
  {
    hide ReadHeader, Parse;
    var n := RIM_PACKET_HEAD_SIZE;
    assert (s + t)[..n] == s[..n] && (s + t)[n..] == s[n..] + t;
    var k := (HeaderAt(s).length - n) % UINT32;
    assert (s[n..] + t)[..k] == s[n..][..k] && (s[n..] + t)[k..] == s[n..][k..] + t;
  }

  // How the bytes of a stream are cut into deliveries makes no difference, for any bytes at all.
  lemma {:induction false} DeliveryIrrelevant(s: Bytes, t: Bytes)
    ensures var (ms, left) := ReceiveAll(s);
            var (ns, left') := ReceiveAll(left + t);
            ReceiveAll(s + t) == (ms + ns, left')
    decreases |s|
  {
    hide Receive;
    var (outcome, rest) := Receive(s);
    if outcome.Done? {
      ReceiveMonotone(s, t);
      DeliveryIrrelevant(rest, t);
      var ms, left := ReceiveAll(rest).0, ReceiveAll(rest).1;
      var ns := ReceiveAll(left + t).0;
      assert ReceiveAll(s) == ([outcome.message] + ms, left);
      assert ReceiveAll(s + t) == ([outcome.message] + ReceiveAll(rest + t).0, ReceiveAll(rest + t).1);
      assert [outcome.message] + (ms + ns) == ([outcome.message] + ms) + ns;
    } else {
      assert ReceiveAll(s) == ([], s);
      assert [] + ReceiveAll(s + t).0 == ReceiveAll(s + t).0;
    }
  }

  // ---- When a packet does not survive ----

  // A parsed packet never needs more bytes than were there.
  lemma ParseNeedsBody(kind: Uint16, body: Bytes)
    requires Registered(kind) && Parse(kind, body).Ok?
    ensures Kind(Parse(kind, body).value) == kind && |Body(Parse(kind, body).value)| <= |body|
  {
    hide Uint16Bytes, GuidBytes, TextBytes, BoolBytes, ReadUint16, ReadGuid, ReadString, ReadBool;
  }

  lemma SurvivesIffFits(m: Message)
    ensures Receive(Sent(m)) == (Done(m), []) <==> Fits(m)
  {
    hide HeaderBytes, Body, HeaderAt, ParseConfig, ParseDeviceAck, ParseEndBlock, ParseData;
    if Fits(m) {
      ReceiveSent(m, []);
      assert Sent(m) + [] == Sent(m);
    } else if |Sent(m)| >= RIM_PACKET_HEAD_SIZE {
      var h, b := HeaderOf(m), Body(m.packet);
      var cut := b[..h.length - RIM_PACKET_HEAD_SIZE];
      assert Sent(m) == HeaderBytes(h) + cut;
      HeaderAtFront(h, cut);
      assert cut[..|cut|] == cut;
      if Parse(h.kind, cut).Ok? {
        ParseNeedsBody(h.kind, cut);
      }
    }
  }

  // ---- When parsing runs past the buffer ----

  // k strings, one after the other: the length of one of them runs past the end.
  predicate TextsOverrun(s: Bytes, k: nat) {
    k > 0 &&
    if |s| < STRING_LENGTH_SIZE then s != []
    else
      var n := STRING_LENGTH_SIZE + LengthAt(s);
      n <= |s| && TextsOverrun(s[n..], k - 1)
  }

  predicate TwoGuidsOverrun(n: nat) {
    GuidOverruns(n) || (n >= 16 && GuidOverruns(n - 16))
  }

  predicate Overruns(kind: Uint16, body: Bytes)
    requires Registered(kind)
  {
    if kind == CONFIG_PACKET then
      0 < |body| < STRING_LENGTH_SIZE
      || (|body| >= STRING_LENGTH_SIZE && |body| == STRING_LENGTH_SIZE + LengthAt(body) + 1)
    else if kind == RIM_DEVICE_ACK then
      TwoGuidsOverrun(|body|) || (|body| >= 32 && TextsOverrun(body[32..], 3))
    else if kind == RIM_END_BLOCK then |body| == 1
    else TwoGuidsOverrun(|body|)
  }

  // Exactly when parse() reads past the end of a packet's bytes, for any bytes.
  lemma OverrunsIff(kind: Uint16, body: Bytes)
    requires Registered(kind)
    ensures Parse(kind, body).Overrun? <==> Overruns(kind, body)
  {
    hide ReadUint16, ReadGuid, ReadString, LengthAt, TextsOverrun, ParseConfig, ParseDeviceAck, ParseData;
    ConfigOverrunsIff(body);
    DeviceAckOverrunsIff(body);
    DataOverrunsIff(body);
    Uint16OverrunsIff(body);
  }

  lemma Uint16OverrunsIff(s: Bytes)
    ensures ReadUint16(s).Overrun? <==> |s| == 1
  {}

  lemma ConfigOverrunsIff(body: Bytes)
    ensures ParseConfig(body).Overrun? <==> Overruns(CONFIG_PACKET, body)
  {
    hide ReadUint16, ReadString, LengthAt;
    StringOverrunsIff(body);
    if ReadString(body).Ok? {
      Uint16OverrunsIff(ReadString(body).rest);
    }
  }

  lemma DataOverrunsIff(body: Bytes)
    ensures ParseData(body).Overrun? <==> TwoGuidsOverrun(|body|)
  {
    hide ReadGuid;
    GuidOverrunsIff(body);
    if |body| >= 16 {
      GuidOverrunsIff(body[16..]);
    }
  }

  lemma DeviceAckOverrunsIff(body: Bytes)
    ensures ParseDeviceAck(body).Overrun? <==> Overruns(RIM_DEVICE_ACK, body)
  {
    hide ReadGuid, ReadString, ReadBool, LengthAt, TextsOverrun;
    GuidOverrunsIff(body);
    if |body| >= 16 {
      GuidOverrunsIff(body[16..]);
      if |body| >= 32 {
        assert body[16..][16..] == body[32..];
        AckTailOverrunsIff(body[32..]);
      }
    }
  }

  lemma AckTailOverrunsIff(s: Bytes)
    ensures TextsOverrun(s, 3) <==>
              var a := ReadString(s);
              a.Overrun? || (a.Ok? &&
                var b := ReadString(a.rest);
                b.Overrun? || (b.Ok? &&
                  var c := ReadString(b.rest);
                  c.Overrun? || (c.Ok? && ReadBool(c.rest).Overrun?)))
  {
    hide ReadString, TextsOverrun;
    NextTextOverrunsIff(s, 3);
    var a := ReadString(s);
    if a.Ok? {
      NextTextOverrunsIff(a.rest, 2);
      var b := ReadString(a.rest);
      if b.Ok? {
        NextTextOverrunsIff(b.rest, 1);
        if ReadString(b.rest).Ok? {
          NoTextsLeft(ReadString(b.rest).rest);
        }
      }
    }
  }

  lemma NextTextOverrunsIff(s: Bytes, k: nat)
    requires k > 0
    ensures var a := ReadString(s);
            TextsOverrun(s, k) <==> a.Overrun? || (a.Ok? && TextsOverrun(a.rest, k - 1))
  {
    StringOverrunsIff(s);
    hide ReadString, LengthAt;
  }

  // Neither does a single byte run past the end.
  lemma NoTextsLeft(s: Bytes)
    ensures !TextsOverrun(s, 0) && !ReadBool(s).Overrun?
  {}

  // Exactly when that happens to a receiver, for any byte stream.
  lemma ReceiveOverrunsIff(s: Bytes)
    ensures Receive(s).0 == BadBody(true) <==>
              && |s| >= RIM_PACKET_HEAD_SIZE && HeaderAt(s).code == RIM_PACKET && Registered(HeaderAt(s).kind)
              && var n := RIM_PACKET_HEAD_SIZE + (HeaderAt(s).length - RIM_PACKET_HEAD_SIZE) % UINT32;
                 n <= |s| && Overruns(HeaderAt(s).kind, s[RIM_PACKET_HEAD_SIZE..n])
  {
    if |s| >= RIM_PACKET_HEAD_SIZE && Registered(HeaderAt(s).kind) {
      var h := HeaderAt(s);
      var n := RIM_PACKET_HEAD_SIZE + (h.length - RIM_PACKET_HEAD_SIZE) % UINT32;
      if n <= |s| {
        assert s[RIM_PACKET_HEAD_SIZE..][..n - RIM_PACKET_HEAD_SIZE] == s[RIM_PACKET_HEAD_SIZE..n];
        OverrunsIff(h.kind, s[RIM_PACKET_HEAD_SIZE..n]);
      }
    }
    hide HeaderAt, Parse, Overruns;
  }

  // An end block whose header announces one byte of payload is enough.
  lemma OverrunIsReached(frame: Uint32, b: Uint8)
    ensures Receive(HeaderBytes(Header(RIM_PACKET, RIM_END_BLOCK, frame, RIM_PACKET_HEAD_SIZE + 1)) + [b]).0
            == BadBody(true)
  {
    var h := Header(RIM_PACKET, RIM_END_BLOCK, frame, RIM_PACKET_HEAD_SIZE + 1);
    var s := HeaderBytes(h) + [b];
    HeaderAtFront(h, [b]);
    ReceiveOverrunsIff(s);
    hide HeaderAt, HeaderBytes, Receive;
    assert |s| == 13 && HeaderAt(s) == h && |s[12..13]| == 1;
  }

  // ---- The lengths the constructors announce ----

  // The length the constructor puts into the header before anything is serialised.
  function AnnouncedLength(p: Packet): Uint32 {
    match p
    case Config(config, _) => (RIM_PACKET_HEAD_SIZE + STRING_LENGTH_SIZE + |config| + 2) % UINT32
    case DeviceAck(_, _, deviceName, deviceBaseType, hostname, _) =>
      (RIM_PACKET_HEAD_SIZE + 16 + 16 + STRING_LENGTH_SIZE + |deviceName| + STRING_LENGTH_SIZE + |deviceBaseType|
       + STRING_LENGTH_SIZE + |hostname| + 1) % UINT32
    case EndBlock(_) => RIM_PACKET_HEAD_SIZE + 2
    case Data(_, _, _) => RIM_PACKET_HEAD_SIZE + 16 + 16
  }

  // serialize overwrites the length; only for a data packet with an object does that change it.
  lemma AnnouncedIsSerialised(m: Message)
    ensures (AnnouncedLength(m.packet) == HeaderOf(m).length) <==>
              (m.packet.Data? ==> |m.packet.content| % UINT32 == 0)
  {}
}
