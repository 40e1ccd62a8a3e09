/** The packet classes, their shared byte buffer and the node that sends and receives them. */
module PacketObjects {
  import opened VprTypes
  import opened PacketBytes
  import opened Packets

  // vpr::BufferObjectWriter and vpr::BufferObjectReader over one vector.
  class Buffer {
    var data: Bytes
    var writePos: int
    var readPos: nat

    constructor ()
      ensures data == [] && writePos == 0 && readPos == 0
    {
      data, writePos, readPos := [], 0, 0;
    }

    function Unread(): Bytes
      requires readPos <= |data|
      reads this
    {
      data[readPos..]
    }

    // What a read did: r came off the front of the unread bytes.
    twostate predicate Consumed<T>(r: Parsed<T>)
      requires old(readPos <= |data|)
      reads this
    {
      && data == old(data) && writePos == old(writePos)
      && (r.Ok? ==> readPos <= |data| && Unread() == r.rest)
    }

    method Clear()
      modifies this
      ensures data == [] && writePos == 0 && readPos == old(readPos)
    {
      data, writePos := [], 0;
    }

    method WriteRaw(bytes: Bytes)
      modifies this
      ensures data == old(data) + bytes && writePos == old(writePos) + |bytes| && readPos == old(readPos)
    {
      var i := 0;
      while i < |bytes|
        invariant 0 <= i <= |bytes| && data == old(data) + bytes[..i]
        invariant writePos == old(writePos) && readPos == old(readPos)
      {
        data := data + [bytes[i]];
        i := i + 1;
      }
      writePos := writePos + |bytes|;
    }

    method WriteUint16(v: Uint16)
      modifies this
      ensures data == old(data) + Uint16Bytes(v) && writePos == old(writePos) + 2 && readPos == old(readPos)
    {
      WriteRaw([v / 0x100, v % 0x100]);
    }

    method WriteUint32(v: Uint32)
      modifies this
      ensures data == old(data) + Uint32Bytes(v) && writePos == old(writePos) + 4 && readPos == old(readPos)
    {
      var high, low := v / UINT16, v % UINT16;
      WriteRaw([high / 0x100, high % 0x100, low / 0x100, low % 0x100]);
    }

    method WriteString(s: Text)
      modifies this
      ensures data == old(data) + TextBytes(s) && writePos == old(writePos) + |TextBytes(s)| && readPos == old(readPos)
    {
      WriteUint32(|s|);
      var i := 0;
      while i < |s|
        invariant 0 <= i <= |s| && data == old(data) + (Uint32Bytes(|s|) + s[..i])
        invariant writePos == old(writePos) + 4 + i && readPos == old(readPos)
      {
        WriteRaw([s[i]]);
        i := i + 1;
      }
    }

    method WriteBool(v: bool)
      modifies this
      ensures data == old(data) + BoolBytes(v) && writePos == old(writePos) + 1 && readPos == old(readPos)
    {
      WriteRaw([if v then 1 else 0]);
    }

    // GUID::writeObject.
    method WriteGuid(g: Guid)
      modifies this
      ensures data == old(data) + GuidBytes(g) && writePos == old(writePos) + 16 && readPos == old(readPos)
    {
      WriteUint32(g.m0);
      WriteUint16(g.m1);
      WriteUint16(g.m2);
      var i := 0;
      ghost var start := data;
      while i < 8
        invariant 0 <= i <= 8 && data == start + g.tail[..i]
        invariant writePos == old(writePos) + 8 + i && readPos == old(readPos)
      {
        WriteRaw([g.tail[i]]);
        i := i + 1;
      }
      assert g.tail[..8] == g.tail;
    }

    method ReadRaw(len: nat) returns (r: Parsed<Bytes>)
      requires readPos <= |data|
      modifies this
      ensures r == PacketBytes.ReadRaw(old(Unread()), len) && Consumed(r)
    {
      if readPos >= |data| {
        return Eof;
      }
      if readPos + len > |data| {
        return Overrun;
      }
      r := Ok(data[readPos..readPos + len], data[readPos + len..]);
      assert r.value == Unread()[..len] && r.rest == Unread()[len..];
      readPos := readPos + len;
    }

    method ReadUint16() returns (r: Parsed<Uint16>)
      requires readPos <= |data|
      modifies this
      ensures r == PacketBytes.ReadUint16(old(Unread())) && Consumed(r)
    {
      var b := ReadRaw(2);
      match b
      case Ok(b, rest) => r := Ok(b[0] as int * 0x100 + b[1], rest);
      case Eof => r := Eof;
      case Overrun => r := Overrun;
    }

    method ReadUint32() returns (r: Parsed<Uint32>)
      requires readPos <= |data|
      modifies this
      ensures r == PacketBytes.ReadUint32(old(Unread())) && Consumed(r)
    {
      var b := ReadRaw(4);
      match b
      case Ok(b, rest) =>
        r := Ok(b[0] as int * 0x100_0000 + b[1] as int * 0x1_0000 + b[2] as int * 0x100 + b[3], rest);
      case Eof => r := Eof;
      case Overrun => r := Overrun;
    }

    // readString's and GUID::readObject's loops of single bytes.
    method ReadBytes(n: nat) returns (r: Parsed<Bytes>)
      requires readPos <= |data|
      modifies this
      ensures r == PacketBytes.ReadBytes(old(Unread()), n) && Consumed(r)
    {
      ghost var s := Unread();
      var bytes: Bytes := [];
      var i := 0;
      while i < n
        invariant data == old(data) && writePos == old(writePos) && readPos <= |data|
        invariant 0 <= i <= n && i <= |s| && bytes == s[..i] && Unread() == s[i..]
      {
        var b := ReadRaw(1);
        if !b.Ok? {
          return Eof;
        }
        bytes := bytes + b.value;
        i := i + 1;
      }
      r := Ok(bytes, data[readPos..]);
    }

    method ReadString() returns (r: Parsed<Text>)
      requires readPos <= |data|
      modifies this
      ensures r == PacketBytes.ReadString(old(Unread())) && Consumed(r)
    {
      var n := ReadUint32();
      match n
      case Ok(n, _) => r := ReadBytes(n);
      case Eof => r := Eof;
      case Overrun => r := Overrun;
    }

    method ReadBool() returns (r: Parsed<bool>)
      requires readPos <= |data|
      modifies this
      ensures r == PacketBytes.ReadBool(old(Unread())) && Consumed(r)
    {
      var b := ReadRaw(1);
      match b
      case Ok(b, rest) => r := Ok(b[0] != 0, rest);
      case Eof => r := Eof;
      case Overrun => r := Overrun;
    }

    // The last eight bytes of a GUID, one by one.
    method ReadTail(tail: Tail) returns (r: Parsed<Bytes>, t: Tail)
      requires readPos <= |data|
      modifies this
      ensures r == PacketBytes.ReadBytes(old(Unread()), 8) && Consumed(r)
      ensures t == TailAfter(tail, old(Unread())) && (r.Ok? ==> r.value == t)
    {
      t := tail;
      ghost var s := Unread();
      var i := 0;
      while i < 8
        invariant data == old(data) && writePos == old(writePos) && readPos <= |data|
        invariant 0 <= i <= 8 && i <= |s| && Unread() == s[i..]
        invariant t == s[..i] + tail[i..]
      {
        var b := ReadRaw(1);
        if !b.Ok? { return Eof, t; }
        t := t[i := b.value[0]];
        i := i + 1;
      }
      assert s[..8] + tail[8..] == s[..8];
      r := Ok(t, data[readPos..]);
    }

    // GUID::readObject on an object that was g and is h afterwards, also when reading ends early.
    method ReadGuid(g: Guid) returns (r: Parsed<Guid>, h: Guid)
      requires readPos <= |data|
      modifies this
      ensures r == PacketBytes.ReadGuid(old(Unread())) && Consumed(r)
      ensures h == GuidAfter(g, old(Unread()))
    {
      hide PacketBytes.ReadUint32, PacketBytes.ReadUint16, PacketBytes.ReadBytes, TailAfter, Unread;
      h := g;
      var m0 := ReadUint32();
      if !m0.Ok? { return m0.PropagateFailure(), h; }
      h := h.(m0 := m0.value);
      var m1 := ReadUint16();
      if !m1.Ok? { return m1.PropagateFailure(), h; }
      h := h.(m1 := m1.value);
      var m2 := ReadUint16();
      if !m2.Ok? { return m2.PropagateFailure(), h; }
      h := h.(m2 := m2.value);
      var tail, t := ReadTail(h.tail);
      h := h.(tail := t);
      if !tail.Ok? { return tail.PropagateFailure(), h; }
      r := Ok(h, tail.rest);
    }
  }

  class HeaderObject {
    var code: Uint16
    var kind: Uint16
    var length: Uint32
    var frame: Uint32

    constructor (code: Uint16, kind: Uint16, length: Uint32, frame: Uint32)
      ensures Fields() == Header(code, kind, frame, length)
    {
      this.code, this.kind, this.length, this.frame := code, kind, length, frame;
    }

    function Fields(): Header
      reads this
    {
      Header(code, kind, frame, length)
    }

    method PrependSerializedHeader(packetWriter: Buffer)
      modifies this`length, packetWriter
      ensures length == (|old(packetWriter.data)| + RIM_PACKET_HEAD_SIZE) % UINT32
      ensures packetWriter.data == HeaderBytes(Fields()) + old(packetWriter.data)
      ensures packetWriter.writePos == length && packetWriter.readPos == old(packetWriter.readPos)
    {
      length := (|packetWriter.data| + RIM_PACKET_HEAD_SIZE) % UINT32;
      var writer := new Buffer();
      writer.WriteUint16(code);
      writer.WriteUint16(kind);
      writer.WriteUint32(frame);
      writer.WriteUint32(length);
      assert writer.data == HeaderBytes(Fields());
      packetWriter.data := writer.data + packetWriter.data;
      packetWriter.writePos := length;
    }

    // False stands for the exception that an unknown code raises.
    method ParseHeader(headerData: Bytes) returns (valid: bool)
      requires |headerData| == RIM_PACKET_HEAD_SIZE
      modifies this
      ensures Fields() == HeaderAt(headerData) && valid == (code == RIM_PACKET)
    {
      var reader := new Buffer();
      reader.data := headerData;
      assert reader.Unread() == headerData;
      var code := reader.ReadUint16();
      var kind := reader.ReadUint16();
      var frame := reader.ReadUint32();
      var length := reader.ReadUint32();
      assert headerData[..RIM_PACKET_HEAD_SIZE] == headerData;
      assert ReadHeader(headerData) == Ok(Header(code.value, kind.value, frame.value, length.value), length.rest) by {
        hide PacketBytes.ReadUint16, PacketBytes.ReadUint32;
      }
      this.code, this.kind, this.frame, this.length := code.value, kind.value, frame.value, length.value;
      valid := this.code == RIM_PACKET;
    }
  }

  // A Config, DeviceAck, EndBlock or Data packet: header, buffer, and the fields of its class.
  class PacketObject {
    var header: HeaderObject
    const buffer: Buffer
    var fields: Packet

    // What the packet says when it is sent.
    function Said(): Message
      reads this, header
    {
      Message(header.frame, fields)
    }

    ghost predicate Valid()
      reads this, header
    {
      header.code == RIM_PACKET && header.kind == Kind(fields)
    }

    // getData() and the header agree with the fields.
    ghost predicate Serialised()
      reads this, header, buffer
    {
      Valid() && header.Fields() == HeaderOf(Said()) && buffer.data == Frame(Said())
    }

    constructor Config(config: Text, change: Uint16)
      ensures Serialised() && Said() == Message(0, Packet.Config(config, change))
      ensures fresh(header) && fresh(buffer)
    {
      fields := Packet.Config(config, change);
      header := new HeaderObject(RIM_PACKET, CONFIG_PACKET,
        (RIM_PACKET_HEAD_SIZE + STRING_LENGTH_SIZE + |config| + 2) % UINT32, 0);
      buffer := new Buffer();
      new;
      var announced := header.length;
      SerializeConfig();
      assert header.length == announced;
    }

    // hostname is what InetAddr::getLocalHost() yields.
    constructor DeviceAck(pluginId: Guid, id: Guid, deviceName: Text, deviceBaseType: Text, hostname: Text, ack: bool)
      ensures Serialised()
      ensures Said() == Message(0, Packet.DeviceAck(pluginId, id, deviceName, deviceBaseType, hostname, ack))
      ensures fresh(header) && fresh(buffer)
    {
      fields := Packet.DeviceAck(pluginId, id, deviceName, deviceBaseType, hostname, ack);
      header := new HeaderObject(RIM_PACKET, RIM_DEVICE_ACK,
        (RIM_PACKET_HEAD_SIZE + 16 + 16 + STRING_LENGTH_SIZE + |deviceName| + STRING_LENGTH_SIZE + |deviceBaseType|
         + STRING_LENGTH_SIZE + |hostname| + 1) % UINT32, 0);
      buffer := new Buffer();
      new;
      var announced := header.length;
      SerializeDeviceAck();
      assert header.length == announced;
    }

    constructor EndBlock(frameNum: Uint32)
      ensures Serialised() && Said() == EndBlockMessage(frameNum)
      ensures fresh(header) && fresh(buffer)
    {
      fields := Packet.EndBlock(frameNum % UINT16);
      header := new HeaderObject(RIM_PACKET, RIM_END_BLOCK, RIM_PACKET_HEAD_SIZE + 2, frameNum);
      buffer := new Buffer();
      new;
      var announced := header.length;
      SerializeEndBlock();
      assert header.length == announced;
    }

    // A data packet is serialised later, once for every object it carries.
    constructor Data(pluginId: Guid, objectId: Guid)
      ensures Valid() && Said() == Message(0, Packet.Data(pluginId, objectId, []))
      ensures fresh(header) && fresh(buffer)
    {
      fields := Packet.Data(pluginId, objectId, []);
      header := new HeaderObject(RIM_PACKET, RIM_DATA_PACKET, RIM_PACKET_HEAD_SIZE + 16 + 16 + 0, 0);
      buffer := new Buffer();
    }

    method SerializeConfig()
      requires Valid() && fields.Config?
      modifies header`length, buffer
      ensures Serialised() && header.length == AnnouncedLength(fields)
    {
      hide Uint16Bytes, TextBytes, HeaderBytes;
      buffer.Clear();
      buffer.WriteString(fields.config);
      buffer.WriteUint16(fields.change);
      assert buffer.data == Body(fields);
      header.PrependSerializedHeader(buffer);
    }

    method SerializeDeviceAck()
      requires Valid() && fields.DeviceAck?
      modifies header`length, buffer
      ensures Serialised() && header.length == AnnouncedLength(fields)
    {
      hide GuidBytes, TextBytes, BoolBytes, HeaderBytes;
      buffer.Clear();
      buffer.WriteGuid(fields.pluginId);
      buffer.WriteGuid(fields.id);
      buffer.WriteString(fields.deviceName);
      buffer.WriteString(fields.deviceBaseType);
      buffer.WriteString(fields.hostname);
      buffer.WriteBool(fields.ack);
      assert buffer.data == Body(fields);
      header.PrependSerializedHeader(buffer);
    }

    method SerializeEndBlock()
      requires Valid() && fields.EndBlock?
      modifies header`length, buffer
      ensures Serialised() && header.length == AnnouncedLength(fields)
    {
      hide Uint16Bytes, HeaderBytes;
      buffer.Clear();
      buffer.WriteUint16(fields.temp);
      assert buffer.data == Body(fields);
      header.PrependSerializedHeader(buffer);
    }

    // Whatever an earlier serialisation left in the buffer: one header, the ids, this object.
    method SerializeData(content: Bytes)
      requires Valid() && fields.Data?
      modifies this`fields, header`length, buffer
      ensures Serialised() && fields == old(fields).(content := content)
    {
      buffer.Clear();
      buffer.WriteGuid(fields.pluginId);
      buffer.WriteGuid(fields.objectId);
      buffer.WriteRaw(content);
      fields := fields.(content := content);
      assert buffer.data == Body(fields);
      header.PrependSerializedHeader(buffer);
    }

    // parse(): assigns the fields, or reports the exception (or overrun) that ended it.
    method Parse() returns (r: Parsed<Packet>)
      requires Registered(header.kind) && header.kind == Kind(fields)
      modifies this`fields, buffer
      ensures buffer.data == old(buffer.data) && Kind(fields) == Kind(old(fields))
      ensures r == Packets.Parse(header.kind, buffer.data)
      ensures r.Ok? ==> fields == r.value
      ensures r.Ok? && fields.Data? ==> buffer.readPos <= |buffer.data| && fields.content == buffer.Unread()
    {
      hide PacketBytes.ReadUint16, PacketBytes.ReadGuid, PacketBytes.ReadString, PacketBytes.ReadBool;
      buffer.readPos := 0;
      assert buffer.Unread() == buffer.data;
      match fields
      case Config(_, _) => r := ParseConfig();
      case DeviceAck(_, _, _, _, _, _) => r := ParseDeviceAck();
      case EndBlock(_) => r := ParseEndBlock();
      case Data(_, _, _) => r := ParseData();
    }

    method ParseConfig() returns (r: Parsed<Packet>)
      requires buffer.readPos == 0 && fields.Config?
      modifies this`fields, buffer
      ensures buffer.data == old(buffer.data) && r == Packets.ParseConfig(buffer.data)
      ensures fields == ConfigAfter(old(fields), buffer.data) && (r.Ok? ==> fields == r.value)
    {
      hide PacketBytes.ReadUint16, PacketBytes.ReadString;
      assert buffer.Unread() == buffer.data;
      var config := buffer.ReadString();
      if !config.Ok? { return config.PropagateFailure(); }
      fields := fields.(config := config.value);
      var change := buffer.ReadUint16();
      if !change.Ok? { return change.PropagateFailure(); }
      fields := fields.(change := change.value);
      r := Ok(fields, change.rest);
    }

    method ParseDeviceAck() returns (r: Parsed<Packet>)
      requires buffer.readPos == 0 && fields.DeviceAck?
      modifies this`fields, buffer
      ensures buffer.data == old(buffer.data) && r == Packets.ParseDeviceAck(buffer.data)
      ensures fields == DeviceAckAfter(old(fields), buffer.data) && (r.Ok? ==> fields == r.value)
    {
      hide PacketBytes.ReadGuid, PacketBytes.ReadString, PacketBytes.ReadBool, GuidAfter;
      assert buffer.Unread() == buffer.data;
      var pluginId, guid := buffer.ReadGuid(fields.pluginId);
      fields := Packet.DeviceAck(guid, fields.id, fields.deviceName, fields.deviceBaseType, fields.hostname,
                                 fields.ack);
      if !pluginId.Ok? { return pluginId.PropagateFailure(); }
      var id, idGuid := buffer.ReadGuid(fields.id);
      fields := fields.(id := idGuid);
      if !id.Ok? { return id.PropagateFailure(); }
      var deviceName := buffer.ReadString();
      if !deviceName.Ok? { return deviceName.PropagateFailure(); }
      fields := fields.(deviceName := deviceName.value);
      var deviceBaseType := buffer.ReadString();
      if !deviceBaseType.Ok? { return deviceBaseType.PropagateFailure(); }
      fields := fields.(deviceBaseType := deviceBaseType.value);
      var hostname := buffer.ReadString();
      if !hostname.Ok? { return hostname.PropagateFailure(); }
      fields := fields.(hostname := hostname.value);
      var ack := buffer.ReadBool();
      if !ack.Ok? { return ack.PropagateFailure(); }
      fields := fields.(ack := ack.value);
      r := Ok(fields, ack.rest);
    }

    method ParseEndBlock() returns (r: Parsed<Packet>)
      requires buffer.readPos == 0 && fields.EndBlock?
      modifies this`fields, buffer
      ensures buffer.data == old(buffer.data) && r == Packets.ParseEndBlock(buffer.data)
      ensures fields == if r.Ok? then r.value else old(fields)
    {
      assert buffer.Unread() == buffer.data;
      var temp := buffer.ReadUint16();
      if !temp.Ok? { return temp.PropagateFailure(); }
      fields := fields.(temp := temp.value);
      r := Ok(fields, temp.rest);
    }

    // The bytes of the object itself stay in the buffer, unread.
    method ParseData() returns (r: Parsed<Packet>)
      requires buffer.readPos == 0 && fields.Data?
      modifies this`fields, buffer
      ensures buffer.data == old(buffer.data) && r == Packets.ParseData(buffer.data)
      ensures fields == DataAfter(old(fields), buffer.data) && (r.Ok? ==> fields == r.value)
      ensures r.Ok? ==> buffer.readPos <= |buffer.data| && fields.content == buffer.Unread()
    {
      hide PacketBytes.ReadGuid, GuidAfter;
      assert buffer.Unread() == buffer.data;
      var pluginId, guid := buffer.ReadGuid(fields.pluginId);
      fields := Packet.Data(guid, fields.objectId, fields.content);
      if !pluginId.Ok? { return pluginId.PropagateFailure(); }
      var objectId, objectGuid := buffer.ReadGuid(fields.objectId);
      fields := fields.(objectId := objectGuid);
      if !objectId.Ok? { return objectId.PropagateFailure(); }
      fields := fields.(content := objectId.rest);
      r := Ok(fields, []);
    }

    // PacketFactory::createObject followed by setHeader.
    constructor Created(header: HeaderObject)
      requires Registered(header.kind)
      ensures this.header == header && header.kind == Kind(fields) && fresh(buffer) && buffer.data == []
    {
      this.header := header;
      buffer := new Buffer();
      fields :=
        if header.kind == CONFIG_PACKET then Packet.Config([], 0)
        else if header.kind == RIM_DEVICE_ACK then Packet.DeviceAck(NULL_GUID, NULL_GUID, [], [], [], false)
        else if header.kind == RIM_END_BLOCK then Packet.EndBlock(0)
        else Packet.Data(NULL_GUID, NULL_GUID, []);
    }
  }

  // gadget::Node over a connected socket: output went into sent, incoming has been delivered and not yet read.
  class SocketNode {
    var output: Bytes
    var incoming: Bytes

    method Send(p: PacketObject)
      requires p.Serialised()
      modifies this`output
      ensures output == old(output) + Sent(p.Said())
    {
      output := output + p.buffer.data[..p.header.length];
    }

    // Blocked: the call would go on waiting for bytes, whatever part of the packet it has taken already.
    method RecvPacket() returns (outcome: Outcome, p: PacketObject?)
      modifies this`incoming
      ensures (outcome, incoming) == Receive(old(incoming))
      ensures outcome.Done? <==> p != null
      ensures outcome.Done? ==> p.Valid() && p.Said() == outcome.message
      ensures outcome.Done? && p.fields.Data? ==>
                p.buffer.readPos <= |p.buffer.data| && p.buffer.Unread() == p.fields.content
    {
      hide HeaderAt, Packets.Parse;
      p := null;
      if |incoming| < RIM_PACKET_HEAD_SIZE {
        return Blocked, null;
      }
      var header := new HeaderObject(0, 0, 0, 0);
      var valid := header.ParseHeader(incoming[..RIM_PACKET_HEAD_SIZE]);
      assert HeaderAt(incoming[..RIM_PACKET_HEAD_SIZE]) == HeaderAt(incoming) by { HeaderAtPrefix(incoming); }
      incoming := incoming[RIM_PACKET_HEAD_SIZE..];
      if !valid {
        return BadCode, null;
      }
      if !Registered(header.kind) {
        return UnknownType, null;
      }
      var n := (header.length - RIM_PACKET_HEAD_SIZE) % UINT32;
      if |incoming| < n {
        return Blocked, null;
      }
      var packet := new PacketObject.Created(header);
      packet.buffer.data := incoming[..n];
      incoming := incoming[n..];
      var r := packet.Parse();
      match r
      case Ok(fields, _) => return Done(Message(header.frame, fields)), packet;
      case Eof => return BadBody(false), null;
      case Overrun => return BadBody(true), null;
    }
  }

  lemma HeaderAtPrefix(s: Bytes)
    requires |s| >= RIM_PACKET_HEAD_SIZE
    ensures HeaderAt(s[..RIM_PACKET_HEAD_SIZE]) == HeaderAt(s)
  {
    assert s[..RIM_PACKET_HEAD_SIZE][..RIM_PACKET_HEAD_SIZE] == s[..RIM_PACKET_HEAD_SIZE];
  }
}
