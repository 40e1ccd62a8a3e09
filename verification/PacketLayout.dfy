/** Every byte of a packet on the wire, and what a receiver does with any bytes, in terms of literal positions. */
module PacketLayout {
  import opened VprTypes
  import opened PacketBytes
  import opened Packets

  // The number that the n bytes from position i on spell, most significant byte first.
  function Big(s: Bytes, i: nat, n: nat): nat
    requires i + n <= |s|
  {
    if n == 0 then 0 else Big(s, i, n - 1) * 0x100 + s[i + n - 1]
  }

  lemma BigTwo(s: Bytes, i: nat)
    requires i + 2 <= |s|
    ensures Big(s, i, 2) == s[i] as int * 0x100 + s[i + 1]
  {
    assert Big(s, i, 1) == s[i];
  }

  lemma BigFour(s: Bytes, i: nat)
    requires i + 4 <= |s|
    ensures Big(s, i, 4) == s[i] as int * 0x100_0000 + s[i + 1] as int * 0x1_0000 + s[i + 2] as int * 0x100 + s[i + 3]
  {
    BigTwo(s, i);
    assert Big(s, i, 3) == Big(s, i, 2) * 0x100 + s[i + 2];
  }

  // A field lies in s from position i on.
  ghost predicate GuidLies(s: Bytes, i: nat, g: Guid) {
    && i + 16 <= |s|
    && Big(s, i, 4) == g.m0 && Big(s, i + 4, 2) == g.m1 && Big(s, i + 6, 2) == g.m2 && s[i + 8..i + 16] == g.tail
  }

  ghost predicate TextLies(s: Bytes, i: nat, t: Text) {
    i + 4 + |t| <= |s| && Big(s, i, 4) == |t| && s[i + 4..i + 4 + |t|] == t
  }

  ghost predicate NumberLies(s: Bytes, i: nat, n: nat, v: nat) {
    i + n <= |s| && Big(s, i, n) == v
  }

  lemma NumberInside(s: Bytes, a: Bytes, v: Uint16, w: Uint32, c: Bytes)
    ensures s == a + Uint16Bytes(v) + c ==> NumberLies(s, |a|, 2, v)
    ensures s == a + Uint32Bytes(w) + c ==> NumberLies(s, |a|, 4, w)
  {
    if s == a + Uint16Bytes(v) + c {
      BigTwo(s, |a|);
    }
    if s == a + Uint32Bytes(w) + c {
      BigFour(s, |a|);
    }
  }

  lemma TextInside(s: Bytes, a: Bytes, t: Text, c: Bytes)
    requires s == a + TextBytes(t) + c
    ensures TextLies(s, |a|, t)
  {
    assert s == a + Uint32Bytes(|t|) + (t + c);
    NumberInside(s, a, 0, |t|, t + c);
    assert s[|a| + 4..|a| + 4 + |t|] == t;
  }

  lemma GuidInside(s: Bytes, a: Bytes, g: Guid, c: Bytes)
    requires s == a + GuidBytes(g) + c
    ensures GuidLies(s, |a|, g)
  {
    var m0, m1, m2 := Uint32Bytes(g.m0), Uint16Bytes(g.m1), Uint16Bytes(g.m2);
    assert s == a + m0 + (m1 + m2 + g.tail + c) && s == (a + m0) + m1 + (m2 + g.tail + c);
    assert s == (a + m0 + m1) + m2 + (g.tail + c);
    NumberInside(s, a, 0, g.m0, m1 + m2 + g.tail + c);
    NumberInside(s, a + m0, g.m1, 0, m2 + g.tail + c);
    NumberInside(s, a + m0 + m1, g.m2, 0, g.tail + c);
    assert s[|a| + 8..|a| + 16] == g.tail;
  }

  // The payload p of a packet that starts at position i and ends with s.
  ghost predicate BodyLies(s: Bytes, i: nat, p: Packet) {
    match p
    case Config(config, change) =>
      && TextLies(s, i, config) && NumberLies(s, i + 4 + |config|, 2, change) && |s| == i + 6 + |config|
    case DeviceAck(pluginId, id, name, base, host, ack) =>
      var second := i + 36 + |name|;
      var third := second + 4 + |base|;
      && GuidLies(s, i, pluginId) && GuidLies(s, i + 16, id) && TextLies(s, i + 32, name)
      && TextLies(s, second, base) && TextLies(s, third, host)
      && |s| == third + 5 + |host| && s[|s| - 1] == if ack then 1 else 0
    case EndBlock(temp) => NumberLies(s, i, 2, temp) && |s| == i + 2
    case Data(pluginId, objectId, content) =>
      GuidLies(s, i, pluginId) && GuidLies(s, i + 16, objectId) && i + 32 <= |s| && s[i + 32..] == content
  }

  lemma BodyInside(s: Bytes, a: Bytes, p: Packet)
    requires s == a + Body(p)
    ensures BodyLies(s, |a|, p)
  {
    hide Uint16Bytes, Uint32Bytes, GuidBytes, TextBytes, Big, TextLies, GuidLies, NumberLies;
    match p
    case Config(config, change) =>
      var t, n := TextBytes(config), Uint16Bytes(change);
      assert s == a + t + n && s == (a + t) + n + [];
      TextInside(s, a, config, n);
      NumberInside(s, a + t, change, 0, []);
    case DeviceAck(pluginId, id, name, base, host, ack) =>
      AckInside(s, a, p);
    case EndBlock(temp) =>
      assert s == a + Uint16Bytes(temp) + [];
      NumberInside(s, a, temp, 0, []);
    case Data(pluginId, objectId, content) =>
      var g, h := GuidBytes(pluginId), GuidBytes(objectId);
      assert s == a + g + (h + content) && s == (a + g) + h + content;
      GuidInside(s, a, pluginId, h + content);
      GuidInside(s, a + g, objectId, content);
      assert s[|a| + 32..] == content;
  }

  lemma AckInside(s: Bytes, a: Bytes, p: Packet)
    requires p.DeviceAck? && s == a + Body(p)
    ensures BodyLies(s, |a|, p)
  {
    hide GuidBytes, TextBytes, Big, TextLies, GuidLies, NumberLies;
    var g, h, b := GuidBytes(p.pluginId), GuidBytes(p.id), BoolBytes(p.ack);
    var t, u, v := TextBytes(p.deviceName), TextBytes(p.deviceBaseType), TextBytes(p.hostname);
    var r3 := u + (v + b);
    var r2 := t + r3;
    var r1 := h + r2;
    GuidInside(s, a, p.pluginId, r1) by { assert s == a + g + r1; }
    Regroup(a, g, h, r2);
    GuidInside(s, a + g, p.id, r2);
    Regroup(a + g, h, t, r3);
    TextInside(s, a + g + h, p.deviceName, r3);
    Regroup(a + g + h, t, u, v + b);
    TextInside(s, a + g + h + t, p.deviceBaseType, v + b);
    Regroup(a + g + h + t, u, v, b);
    TextInside(s, a + g + h + t + u, p.hostname, b);
  }

  lemma Regroup(a: Bytes, x: Bytes, y: Bytes, rest: Bytes)
    ensures a + x + (y + rest) == (a + x) + y + rest
  {}

  // All of a packet on the wire: 400, the type, the frame number and the size, then the fields of its class.
  lemma WireLayout(m: Message)
    requires Fits(m)
    ensures var s := Sent(m);
            && NumberLies(s, 0, 2, 400) && NumberLies(s, 4, 4, m.frame) && NumberLies(s, 8, 4, |s|)
            && NumberLies(s, 2, 2, match m.packet case Config(_, _) => 412 case DeviceAck(_, _, _, _, _, _) => 403
                                                  case EndBlock(_) => 410 case Data(_, _, _) => 401)
            && BodyLies(s, 12, m.packet)
  {
    var s, h := Sent(m), HeaderOf(m);
    HeaderLayout(m);
    BigTwo(s, 0);
    BigTwo(s, 2);
    BigFour(s, 4);
    BigFour(s, 8);
    hide Body, Big, BodyLies;
    assert s == HeaderBytes(h) + Body(m.packet);
    BodyInside(s, HeaderBytes(h), m.packet);
  }

  // An end block says its number twice: all of it in the header, the two low bytes again in the body.
  lemma EndBlockOnWire(frameNum: Uint32)
    ensures var s := Sent(EndBlockMessage(frameNum));
            |s| == 14 && Big(s, 4, 4) == frameNum && s[12] == s[6] && s[13] == s[7]
  {
    var m := EndBlockMessage(frameNum);
    var s := Sent(m);
    WireLayout(m);
    BigFour(s, 4);
    BigTwo(s, 6);
    BigTwo(s, 12);
    hide Big;
    LowPart(s[4] as int * 0x100 + s[5], s[6] as int * 0x100 + s[7]);
    SameDigits(s[6], s[7], s[12], s[13]);
  }

  lemma LowPart(high: nat, low: Uint16)
    ensures (high * 0x1_0000 + low) % UINT16 == low
  {}

  lemma SameDigits(a: Uint8, b: Uint8, c: Uint8, d: Uint8)
    requires a as int * 0x100 + b == c as int * 0x100 + d
    ensures a == c && b == d
  {}

  // ---- Receiving any bytes ----

  lemma Uint16Reads(s: Bytes, i: nat)
    requires i <= |s|
    ensures ReadUint16(s[i..]).Ok? <==> |s| >= i + 2
    ensures |s| >= i + 2 ==> ReadUint16(s[i..]) == Ok(Big(s, i, 2), s[i + 2..])
  {
    if |s| >= i + 2 {
      BigTwo(s, i);
    }
  }

  lemma Uint32Reads(s: Bytes, i: nat)
    requires i <= |s|
    ensures ReadUint32(s[i..]).Ok? <==> |s| >= i + 4
    ensures |s| >= i + 4 ==> ReadUint32(s[i..]) == Ok(Big(s, i, 4), s[i + 4..])
  {
    if |s| >= i + 4 {
      BigFour(s, i);
    }
  }

  lemma HeaderReads(s: Bytes)
    requires |s| >= 12
    ensures var h := HeaderAt(s);
            h.code == Big(s, 0, 2) && h.kind == Big(s, 2, 2) && h.frame == Big(s, 4, 4) && h.length == Big(s, 8, 4)
  {
    hide ReadUint16, ReadUint32, Big;
    var t := s[..12];
    assert t[0..] == t;
    Uint16Reads(t, 0);
    Uint16Reads(t, 2);
    Uint32Reads(t, 4);
    Uint32Reads(t, 8);
    BigInFront(s, 12, 0);
    BigInFront(s, 12, 2);
    BigInFront(s, 12, 4);
    BigInFront(s, 12, 8);
  }

  lemma BigInFront(s: Bytes, m: nat, i: nat)
    requires i + 4 <= m <= |s|
    ensures Big(s[..m], i, 2) == Big(s, i, 2) && Big(s[..m], i, 4) == Big(s, i, 4)
  {
    BigTwo(s, i);
    BigTwo(s[..m], i);
    BigFour(s, i);
    BigFour(s[..m], i);
  }

  lemma TakesBody(h: Header, s: Bytes)
    ensures var n, r := (h.length - 12) % UINT32, ReceiveBody(h, s);
            if h.code != 400 then r == (BadCode, s)
            else if h.kind != 401 && h.kind != 403 && h.kind != 410 && h.kind != 412 then r == (UnknownType, s)
            else if |s| < n then r == (Blocked, s)
            else r.1 == s[n..] && (r.0.Done? || r.0.BadBody?)
  {
    hide Parse;
  }

  // What the receiver does first: it waits for twelve bytes, refuses other codes than 400 and other types than the
  // four, and takes as many bytes as the header announces; then it has a packet or a payload that does not parse.
  lemma ReceivesBy(s: Bytes)
    ensures |s| < 12 ==> Receive(s) == (Blocked, s)
    ensures |s| >= 12 ==>
              var kind, n := Big(s, 2, 2), (Big(s, 8, 4) - 12) % UINT32;
              if Big(s, 0, 2) != 400 then Receive(s) == (BadCode, s[12..])
              else if kind != 401 && kind != 403 && kind != 410 && kind != 412 then Receive(s) == (UnknownType, s[12..])
              else if |s| - 12 < n then Receive(s) == (Blocked, s[12..])
              else Receive(s).1 == s[12 + n..] && (Receive(s).0.Done? || Receive(s).0.BadBody?)
  {
    hide HeaderAt, ReceiveBody, Big;
    if |s| >= 12 {
      HeaderReads(s);
      TakesBody(HeaderAt(s), s[12..]);
      var n := (HeaderAt(s).length - 12) % UINT32;
      assert |s| - 12 >= n ==> s[12..][n..] == s[12 + n..];
    }
  }

  // ---- What parse() leaves in the fields, however the payload ends ----

  // Every part of a GUID for which the bytes are there is new, the others are as before.
  ghost predicate GuidPartly(s: Bytes, i: nat, g: Guid, h: Guid)
    requires i <= |s|
  {
    && h.m0 == (if |s| >= i + 4 then Big(s, i, 4) else g.m0)
    && h.m1 == (if |s| >= i + 6 then Big(s, i + 4, 2) else g.m1)
    && h.m2 == (if |s| >= i + 8 then Big(s, i + 6, 2) else g.m2)
    && forall k :: 0 <= k < 8 ==> h.tail[k] == if |s| > i + 8 + k then s[i + 8 + k] else g.tail[k]
  }

  lemma GuidReads(s: Bytes, i: nat, g: Guid)
    requires i <= |s|
    ensures GuidPartly(s, i, g, GuidAfter(g, s[i..]))
    ensures ReadGuid(s[i..]).Ok? <==> |s| >= i + 16
    ensures |s| >= i + 16 ==> ReadGuid(s[i..]).rest == s[i + 16..]
  {
    hide ReadUint16, ReadUint32, Big;
    Uint32Reads(s, i);
    if |s| >= i + 4 {
      Uint16Reads(s, i + 4);
      if |s| >= i + 6 {
        Uint16Reads(s, i + 6);
      }
    }
  }

  // Whether a whole string starts at position i, and where it ends.
  predicate TextAt(s: Bytes, i: nat) {
    i + 4 <= |s| && i + 4 + Big(s, i, 4) <= |s|
  }

  function TextEnd(s: Bytes, i: nat): (e: nat)
    requires TextAt(s, i)
    ensures i + 4 <= e <= |s|
  {
    i + 4 + Big(s, i, 4)
  }

  lemma TextReads(s: Bytes, i: nat)
    requires i <= |s|
    ensures ReadString(s[i..]).Ok? <==> TextAt(s, i)
    ensures TextAt(s, i) ==> ReadString(s[i..]) == Ok(s[i + 4..TextEnd(s, i)], s[TextEnd(s, i)..])
  {
    hide ReadUint32, Big;
    Uint32Reads(s, i);
    if TextAt(s, i) {
      var n := Big(s, i, 4);
      assert s[i + 4..][..n] == s[i + 4..i + 4 + n] && s[i + 4..][n..] == s[i + 4 + n..];
    }
  }

  // A Config packet after parse(): the string if it is all there, the type if both bytes behind the string are.
  lemma ConfigPartly(p: Packet, s: Bytes)
    requires p.Config?
    ensures var q := ConfigAfter(p, s);
            && q.Config?
            && q.config == (if TextAt(s, 0) then s[4..TextEnd(s, 0)] else p.config)
            && q.change == if TextAt(s, 0) && |s| >= TextEnd(s, 0) + 2 then Big(s, TextEnd(s, 0), 2) else p.change
  {
    hide ReadUint16, ReadString, Big;
    assert s[0..] == s;
    TextReads(s, 0);
    if TextAt(s, 0) {
      Uint16Reads(s, TextEnd(s, 0));
    }
  }

  // A Data packet: both GUIDs as far as they go, the object once both are there.
  lemma DataPartly(p: Packet, s: Bytes)
    requires p.Data?
    ensures var q := DataAfter(p, s);
            && q.Data? && GuidPartly(s, 0, p.pluginId, q.pluginId)
            && (if |s| >= 16 then GuidPartly(s, 16, p.objectId, q.objectId) else q.objectId == p.objectId)
            && q.content == if |s| >= 32 then s[32..] else p.content
  {
    hide ReadGuid, GuidAfter, GuidPartly;
    assert s[0..] == s;
    GuidReads(s, 0, p.pluginId);
    if |s| >= 16 {
      GuidReads(s, 16, p.objectId);
    }
  }

  // A DeviceAck packet: field after field, up to the first one that is not all there.
  lemma DeviceAckPartly(p: Packet, s: Bytes)
    requires p.DeviceAck?
    ensures var q := DeviceAckAfter(p, s);
            var one := |s| >= 32 && TextAt(s, 32);
            var two := one && TextAt(s, TextEnd(s, 32));
            var three := two && TextAt(s, TextEnd(s, TextEnd(s, 32)));
            && q.DeviceAck? && GuidPartly(s, 0, p.pluginId, q.pluginId)
            && (if |s| >= 16 then GuidPartly(s, 16, p.id, q.id) else q.id == p.id)
            && q.deviceName == (if one then s[36..TextEnd(s, 32)] else p.deviceName)
            && q.deviceBaseType == (if two then s[TextEnd(s, 32) + 4..TextEnd(s, TextEnd(s, 32))] else p.deviceBaseType)
            && q.hostname == (if three then s[TextEnd(s, TextEnd(s, 32)) + 4..TextEnd(s, TextEnd(s, TextEnd(s, 32)))]
                              else p.hostname)
            && q.ack == if three && |s| > TextEnd(s, TextEnd(s, TextEnd(s, 32)))
                        then s[TextEnd(s, TextEnd(s, TextEnd(s, 32)))] != 0 else p.ack
  {
    hide ReadGuid, ReadString, GuidAfter, GuidPartly, TextAt, TextEnd;
    assert s[0..] == s;
    GuidReads(s, 0, p.pluginId);
    if |s| >= 16 {
      GuidReads(s, 16, p.id);
      if |s| >= 32 {
        TextReads(s, 32);
        if TextAt(s, 32) {
          TextReads(s, TextEnd(s, 32));
          if TextAt(s, TextEnd(s, 32)) {
            TextReads(s, TextEnd(s, TextEnd(s, 32)));
          }
        }
      }
    }
  }
}
