/** The byte formats of vpr::BufferObjectWriter and vpr::BufferObjectReader that packets use. */
module PacketBytes {
  import opened VprTypes

  // What a read yields: a value and the unread bytes; EOFException when no byte is left;
  // or a read that starts inside the buffer and runs past its end, which readRaw does not check.
  datatype Parsed<+T> = Ok(value: T, rest: Bytes) | Eof | Overrun {
    predicate IsFailure() { !Ok? }

    function PropagateFailure<U>(): Parsed<U>
      requires IsFailure()
    {
      if Eof? then Eof else Overrun
    }

    function Extract(): (T, Bytes)
      requires !IsFailure()
    {
      (value, rest)
    }
  }

  type Tail = s: Bytes | |s| == 8 witness [0, 0, 0, 0, 0, 0, 0, 0]

  datatype Guid = Guid(m0: Uint32, m1: Uint16, m2: Uint16, tail: Tail)

  const NULL_GUID := Guid(0, 0, 0, [0, 0, 0, 0, 0, 0, 0, 0])

  // writeString counts with a 32-bit index and never stops on a longer string.
  type Text = s: Bytes | |s| < UINT32

  const STRING_LENGTH_SIZE := 4

  // ---- Writing, most significant byte first ----

  function Uint16Bytes(v: Uint16): (b: Bytes)
    ensures |b| == 2
  {
    [v / 0x100, v % 0x100]
  }

  function Uint32Bytes(v: Uint32): (b: Bytes)
    ensures |b| == 4
  {
    Uint16Bytes(v / UINT16) + Uint16Bytes(v % UINT16)
  }

  function Uint64Bytes(v: Uint64): (b: Bytes)
    ensures |b| == 8
  {
    Uint32Bytes(v / UINT32) + Uint32Bytes(v % UINT32)
  }

  function GuidBytes(g: Guid): (b: Bytes)
    ensures |b| == 16
  {
    Uint32Bytes(g.m0) + (Uint16Bytes(g.m1) + (Uint16Bytes(g.m2) + g.tail))
  }

  function TextBytes(s: Text): (b: Bytes)
    ensures |b| == STRING_LENGTH_SIZE + |s|
  {
    Uint32Bytes(|s|) + s
  }

  function BoolBytes(v: bool): (b: Bytes)
    ensures |b| == 1
  {
    [if v then 1 else 0]
  }

  // ---- Reading ----

  function ReadRaw(s: Bytes, len: nat): (r: Parsed<Bytes>)
    ensures r.Ok? ==> s == r.value + r.rest && |r.value| == len
  {
    if s == [] then Eof else if |s| < len then Overrun else Ok(s[..len], s[len..])
  }

  function ReadUint16(s: Bytes): (r: Parsed<Uint16>)
    ensures r.Ok? ==> |s| == 2 + |r.rest|
  {
    var (b, rest) :- ReadRaw(s, 2);
    Ok(b[0] as int * 0x100 + b[1], rest)
  }

  function ReadUint32(s: Bytes): (r: Parsed<Uint32>)
    ensures r.Ok? ==> |s| == 4 + |r.rest|
  {
    var (b, rest) :- ReadRaw(s, 4);
    Ok(b[0] as int * 0x100_0000 + b[1] as int * 0x1_0000 + b[2] as int * 0x100 + b[3], rest)
  }

  function ReadUint64(s: Bytes): (r: Parsed<Uint64>)
    ensures r.Ok? ==> |s| == 8 + |r.rest|
  {
    var (b, rest) :- ReadRaw(s, 8);
    Ok(ReadUint32(b[..4]).value as int * UINT32 + ReadUint32(b[4..]).value, rest)
  }

  // Single bytes, one after the other: past the end there is always an EOFException.
  function ReadBytes(s: Bytes, n: nat): Parsed<Bytes> {
    if n <= |s| then Ok(s[..n], s[n..]) else Eof
  }

  function ReadGuid(s: Bytes): (r: Parsed<Guid>)
    ensures r.Ok? ==> |s| == 16 + |r.rest|
  {
    var (m0, s) :- ReadUint32(s);
    var (m1, s) :- ReadUint16(s);
    var (m2, s) :- ReadUint16(s);
    var (tail, s) :- ReadBytes(s, 8);
    Ok(Guid(m0, m1, m2, tail), s)
  }

  function TailAfter(tail: Tail, s: Bytes): Tail {
    var k := if |s| < 8 then |s| else 8;
    s[..k] + tail[k..]
  }

  // A GUID after readObject, which assigns every field and every one of the last eight bytes as it reads it.
  function GuidAfter(g: Guid, s: Bytes): (h: Guid)
    ensures ReadGuid(s).Ok? ==> h == ReadGuid(s).value
  {
    var a := ReadUint32(s);
    if !a.Ok? then g
    else
      var b := ReadUint16(a.rest);
      if !b.Ok? then g.(m0 := a.value)
      else
        var c := ReadUint16(b.rest);
        if !c.Ok? then g.(m0 := a.value, m1 := b.value)
        else Guid(a.value, b.value, c.value, TailAfter(g.tail, c.rest))
  }

  function ReadString(s: Bytes): (r: Parsed<Text>)
    ensures r.Ok? ==> |s| == STRING_LENGTH_SIZE + |r.value| + |r.rest|
  {
    var (n, s) :- ReadUint32(s);
    ReadBytes(s, n)
  }

  function ReadBool(s: Bytes): (r: Parsed<bool>)
    ensures r.Ok? ==> |s| == 1 + |r.rest|
  {
    var (b, s) :- ReadRaw(s, 1);
    Ok(b[0] != 0, s)
  }

  // ---- Reads that run past the buffer ----

  // The length in front of a string.
  function LengthAt(s: Bytes): Uint32
    requires |s| >= STRING_LENGTH_SIZE
  {
    ReadUint32(s).value
  }

  // A GUID's first three fields are read in one piece each, its last eight bytes one by one.
  predicate GuidOverruns(n: nat) {
    n == 1 || n == 2 || n == 3 || n == 5 || n == 7
  }

  lemma GuidOverrunsIff(s: Bytes)
    ensures ReadGuid(s).Overrun? <==> GuidOverruns(|s|)
    ensures ReadGuid(s).Ok? <==> |s| >= 16
    ensures ReadGuid(s).Ok? ==> ReadGuid(s).rest == s[16..]
  {
    if |s| >= 16 {
      assert s[4..][2..] == s[6..] && s[6..][2..] == s[8..] && s[8..][8..] == s[16..];
    }
  }

  // Of a string only the length can run past the buffer.
  lemma StringOverrunsIff(s: Bytes)
    ensures ReadString(s).Overrun? <==> 0 < |s| < STRING_LENGTH_SIZE
    ensures ReadString(s).Ok? <==> |s| >= STRING_LENGTH_SIZE && |s| >= STRING_LENGTH_SIZE + LengthAt(s)
    ensures ReadString(s).Ok? ==> ReadString(s).rest == s[STRING_LENGTH_SIZE + LengthAt(s)..]
  {
    if |s| >= STRING_LENGTH_SIZE && |s| >= STRING_LENGTH_SIZE + LengthAt(s) {
      assert s[4..][LengthAt(s)..] == s[STRING_LENGTH_SIZE + LengthAt(s)..];
    }
  }

  // ---- What was written is read back ----

  lemma Uint16Back(v: Uint16, rest: Bytes)
    ensures ReadUint16(Uint16Bytes(v) + rest) == Ok(v, rest)
  {
    assert (Uint16Bytes(v) + rest)[2..] == rest;
  }

  lemma Uint32Back(v: Uint32, rest: Bytes)
    ensures ReadUint32(Uint32Bytes(v) + rest) == Ok(v, rest)
  {
    assert (Uint32Bytes(v) + rest)[4..] == rest;
  }

  lemma Uint64Back(v: Uint64, rest: Bytes)
    ensures ReadUint64(Uint64Bytes(v) + rest) == Ok(v, rest)
  {
    var high, low := Uint32Bytes(v / UINT32), Uint32Bytes(v % UINT32);
    assert (Uint64Bytes(v) + rest)[..8] == high + low && (Uint64Bytes(v) + rest)[8..] == rest;
    assert (high + low)[..4] == high + [] && (high + low)[4..] == low + [];
    Uint32Back(v / UINT32, []);
    Uint32Back(v % UINT32, []);
  }

  lemma GuidBack(g: Guid, rest: Bytes)
    ensures ReadGuid(GuidBytes(g) + rest) == Ok(g, rest)
  {
    var s2 := g.tail + rest;
    var s1 := Uint16Bytes(g.m2) + s2;
    var s0 := Uint16Bytes(g.m1) + s1;
    assert GuidBytes(g) + rest == Uint32Bytes(g.m0) + s0;
    Uint32Back(g.m0, s0);
    Uint16Back(g.m1, s1);
    Uint16Back(g.m2, s2);
    assert s2[..8] == g.tail && s2[8..] == rest;
  }

  lemma TextBack(s: Text, rest: Bytes)
    ensures ReadString(TextBytes(s) + rest) == Ok(s, rest)
  {
    assert TextBytes(s) + rest == Uint32Bytes(|s|) + (s + rest);
    Uint32Back(|s|, s + rest);
    assert (s + rest)[..|s|] == s && (s + rest)[|s|..] == rest;
  }

  lemma BoolBack(v: bool, rest: Bytes)
    ensures ReadBool(BoolBytes(v) + rest) == Ok(v, rest)
  {
    assert (BoolBytes(v) + rest)[1..] == rest;
  }
}
