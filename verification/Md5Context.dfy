/** The buffered digest: MD5Init, MD5Update and MD5Final refine the one-shot digest of the specification. */
module Md5Context {
  import opened Md5Spec
  import opened VprTypes
  import opened Md5Compression

  // ---- Absorbing in pieces ----

  lemma {:induction false} AbsorbConcat(r: Regs, a: seq<Uint8>, b: seq<Uint8>)
    requires |a| % 64 == 0
    ensures Absorb(r, a + b) == Absorb(Absorb(r, a), b)
    decreases |a|
  {
    hide Compress;
    if a == [] {
      assert a + b == b;
    } else {
      assert (a + b)[..64] == a[..64] && (a + b)[64..] == a[64..] + b;
      AbsorbConcat(Compress(r, a[..64]), a[64..], b);
    }
  }

  lemma AbsorbNextBlock(r: Regs, m: seq<Uint8>, p: nat)
    requires p % 64 == 0 && p + 64 <= |m|
    ensures Absorb(r, m[..p + 64]) == Compress(Absorb(r, m[..p]), m[p..p + 64])
  {
    hide Compress;
    var block := m[p..p + 64];
    assert m[..p + 64] == m[..p] + block;
    AbsorbConcat(r, m[..p], block);
    assert block[..64] == block;
  }

  lemma {:induction false} DecodeInvertsEncode(words: seq<Uint32>, i: nat)
    requires i < |words|
    ensures DecodeAt(EncodeWords(words), i) == words[i]
  {
    var last := |words| - 1;
    var front := EncodeWords(words[..last]);
    assert EncodeWords(words) == front + BytesOf(words[last]);
    if i < last {
      DecodeInvertsEncode(words[..last], i);
    } else {
      WordOfBytes(words[last]);
    }
  }

  lemma WordOfBytes(w: Uint32)
    ensures var b := BytesOf(w); WordOf(b[0], b[1], b[2], b[3]) == w
  {
    var g := w / 0x1_0000;
    ByteAndRest(w);
    ByteAndRest(g);
    assert w / 0x100_0000 == g / 0x100;
    assert g / 0x100 % 0x100 == g / 0x100;
  }

  // The two low bytes of a number, and what is above them.
  lemma ByteAndRest(x: nat)
    ensures x == x % 0x100 + 0x100 * (x / 0x100 % 0x100) + 0x1_0000 * (x / 0x1_0000)
  {
    var h := x / 0x100;
    assert x == 0x100 * h + x % 0x100;
    assert h == 0x100 * (h / 0x100) + h % 0x100;
    assert h / 0x100 == x / 0x1_0000;
  }

  // ---- The two-word bit counter ----

  ghost predicate Counts(low: Uint32, high: Uint32, n: nat) {
    low + UINT32 * high == 8 * n % UINT64
  }

  lemma CountGivesIndex(low: Uint32, high: Uint32, n: nat)
    requires Counts(low, high, n)
    ensures low / 8 % 64 == n % 64
  {
    var k := 8 * n / UINT64;
    var whole := high * 0x80_0000 + k * 0x80_0000_0000_0000;
    assert 8 * n == k * UINT64 + UINT32 * high + low;
    assert low == 8 * (n - 64 * whole);
    EighthOf(low, n - 64 * whole);
    SameMod64(n, whole);
  }

  lemma EighthOf(x: int, y: int)
    requires x == 8 * y
    ensures x / 8 == y
  {}

  lemma SameMod64(n: int, k: int)
    ensures (n - 64 * k) % 64 == n % 64
  {}

  lemma CountIsLength(low: Uint32, high: Uint32, n: nat)
    requires Counts(low, high, n)
    ensures EncodeWords([low, high]) == LengthBytes(n)
  {
    ModOf(8 * n % UINT64, high, low);
  }

  // The two increments of count[1] add the carry and the bits that were shifted out.
  lemma CountAdvances(low: Uint32, high: Uint32, n: nat, len: nat)
    requires Counts(low, high, n) && len < UINT32
    ensures var bits := len * 8 % UINT32;
            var low' := (low + bits) % UINT32;
            var carried := if low' < bits then (high + 1) % UINT32 else high;
            Counts(low', (carried + len / 0x2000_0000) % UINT32, n + len)
  {
    var bits, upper := len * 8 % UINT32, len / 0x2000_0000;
    var low' := (low + bits) % UINT32;
    var carry := if low' < bits then 1 else 0;
    ModOf(len * 8, upper, len % 0x2000_0000 * 8);
    LowCarries(low, bits);
    HighWraps(high, carry, upper);
    var high' := (high + carry + upper) % UINT32;
    var over := (high + carry + upper) / UINT32;
    var k := 8 * n / UINT64;
    assert 8 * n == k * UINT64 + UINT32 * high + low;
    ModOfLong(8 * (n + len), k + over, low' + UINT32 * high');
  }

  lemma LowCarries(low: Uint32, bits: Uint32)
    ensures var low' := (low + bits) % UINT32;
            low + bits == (if low' < bits then UINT32 else 0) + low'
  {}

  lemma HighWraps(high: Uint32, carry: nat, upper: nat)
    requires carry <= 1
    ensures (high + carry + upper) % UINT32 == ((high + carry) % UINT32 + upper) % UINT32
  {}

  lemma ModOfLong(x: int, k: int, r: int)
    requires x == k * UINT64 + r && 0 <= r < UINT64
    ensures x % UINT64 == r
  {}

  // MD5Update's loop over whole blocks adds to its counter in 32 bits, in the guard as well.
  // It reads only whole blocks of the input exactly when i + 63 never wraps around.
  predicate NoWrap(index: nat, len: nat) {
    index + len < 64 || len - (index + len) % 64 + 63 < UINT32
  }

  lemma GuardStopsIffNoWrap(index: nat, len: nat)
    requires index < 64 <= index + len && len < UINT32
    ensures var last := len - (index + len) % 64;
            NoWrap(index, len) <==> !((last + 63) % UINT32 < len)
  {}

  // It can wrap: one byte is buffered and the input is as long as it can be.
  lemma GuardCanWrap()
    ensures !NoWrap(1, UINT32 - 1)
  {}

  // At a block boundary n + i inside the input the 32-bit loop counter behaves like an integer.
  lemma GuardInside(n: nat, len: nat, i: nat)
    requires 64 <= n % 64 + len && len < UINT32 && NoWrap(n % 64, len)
    requires i <= len && (n + i) % 64 == 0
    ensures i + 63 < UINT32
    ensures i + 63 < len ==> (i + 64) % UINT32 == i + 64 && (n + i + 64) % 64 == 0
  {
    assert (n % 64 + i) % 64 == 0;
  }

  lemma BoundaryBelow(n: nat)
    ensures (n - n % 64) % 64 == 0
  {}

  // All whole blocks of m are in the registers, the rest is the front of the buffer.
  ghost predicate Buffered(m: seq<Uint8>, regs: Regs, buffer: seq<Uint8>) {
    var tail := |m| % 64;
    && |buffer| == 64
    && regs == Absorb(INITIAL, m[..|m| - tail])
    && buffer[..tail] == m[|m| - tail..]
  }

  lemma BufferedFrom(m: seq<Uint8>, p: nat, regs: Regs, buffer: seq<Uint8>)
    requires p % 64 == 0 && p <= |m| < p + 64 && |buffer| == 64
    requires regs == Absorb(INITIAL, m[..p]) && buffer[..|m| - p] == m[p..]
    ensures Buffered(m, regs, buffer)
  {
    hide Absorb;
    assert |m| % 64 == |m| - p;
  }

  // ---- The context ----

  method Memcpy(output: array<Uint8>, at: nat, input: seq<Uint8>)
    requires at + |input| <= output.Length
    modifies output
    ensures output[..at] == old(output[..at])
    ensures output[at..at + |input|] == input
    ensures output[at + |input|..] == old(output[at + |input|..])
  {
    var i := 0;
    while i < |input|
      invariant 0 <= i <= |input|
      invariant output[..at] == old(output[..at])
      invariant output[at..at + i] == input[..i]
      invariant output[at + i..] == old(output[at + i..])
    {
      output[at + i] := input[i];
      i := i + 1;
    }
  }

  method Encode(output: array<Uint8>, input: array<Uint32>)
    requires output.Length == 4 * input.Length && output as object != input
    modifies output
    ensures output[..] == EncodeWords(input[..])
  {
    var i, j := 0, 0;
    while j < output.Length
      invariant j == 4 * i && 0 <= i <= input.Length
      invariant output[..j] == EncodeWords(input[..i])
      invariant input[..] == old(input[..])
    {
      output[j] := (input[i] % 0x100) as Uint8;
      output[j + 1] := (input[i] / 0x100 % 0x100) as Uint8;
      output[j + 2] := (input[i] / 0x1_0000 % 0x100) as Uint8;
      output[j + 3] := (input[i] / 0x100_0000 % 0x100) as Uint8;
      assert output[..j + 4] == output[..j] + BytesOf(input[i]);
      assert input[..i + 1][..i] == input[..i];
      i, j := i + 1, j + 4;
    }
    assert output[..j] == output[..] && input[..i] == input[..];
  }

  class Context {
    var state: array<Uint32>
    var count: array<Uint32>
    var buffer: array<Uint8>
    ghost var absorbed: seq<Uint8>

    ghost predicate Shaped()
      reads this
    {
      && state.Length == 4 && count.Length == 2 && buffer.Length == 64
      && state != count && buffer as object != state && buffer as object != count
    }

    // The counter holds the number of bits absorbed, modulo 2^64.
    ghost predicate Valid()
      reads this, state, count, buffer
    {
      && Shaped()
      && Buffered(absorbed, StateRegs(state), buffer[..])
      && Counts(count[0], count[1], |absorbed|)
    }

    constructor ()
      ensures Shaped() && fresh(state) && fresh(count) && fresh(buffer)
    {
      state := new Uint32[4](_ => 0);
      count := new Uint32[2](_ => 0);
      buffer := new Uint8[64](_ => 0);
    }

    method Init()
      requires Shaped()
      modifies this`absorbed, state, count
      ensures Valid() && absorbed == []
    {
      count[0], count[1] := 0, 0;
      state[0] := 0x67452301;
      state[1] := 0xefcdab89;
      state[2] := 0x98badcfe;
      state[3] := 0x10325476;
      absorbed := [];
    }

    method AdvanceCount(ghost n: nat, inputLen: nat)
      requires Shaped() && inputLen < UINT32 && Counts(count[0], count[1], n)
      modifies count
      ensures Counts(count[0], count[1], n + inputLen)
    {
      CountAdvances(count[0], count[1], n, inputLen);
      var bits := inputLen * 8 % UINT32;
      count[0] := (count[0] + bits) % UINT32;
      if count[0] < bits {
        count[1] := (count[1] + 1) % UINT32;
      }
      count[1] := (count[1] + inputLen / 0x2000_0000) % UINT32;
    }

    method Update(input: seq<Uint8>)
      requires Valid() && |input| < UINT32 && NoWrap(|absorbed| % 64, |input|)
      modifies this`absorbed, state, count, buffer
      ensures Valid() && absorbed == old(absorbed) + input
    {
      hide Absorb, Compress, Counts, StateRegs, NoWrap, Buffered;
      ghost var m, all := absorbed, absorbed + input;
      CountGivesIndex(count[0], count[1], |m|);
      var index := count[0] / 8 % 64;
      AdvanceCount(|m|, |input|);
      var i;
      ghost var p;
      i, index, p := TransformBlocks(m, index, input);
      assert |all| - p == index + |input| - i;
      Memcpy(buffer, index, input[i..]);
      assert buffer[..|all| - p] == buffer[..index] + buffer[index..index + |input| - i];
      BufferedFrom(all, p, StateRegs(state), buffer[..]);
      absorbed := all;
    }

    // Transforms as many times as possible: the completed buffer, then the whole blocks of the input.
    // What remains to be buffered is input[i..], at position index' of the buffer.
    method TransformBlocks(ghost m: seq<Uint8>, index: nat, input: seq<Uint8>)
      returns (i: nat, index': nat, ghost p: nat)
      requires Shaped() && index == |m| % 64 && |input| < UINT32 && NoWrap(index, |input|)
      requires Buffered(m, StateRegs(state), buffer[..])
      modifies state, buffer
      ensures i <= |input| && p <= |m + input| < p + 64 && p % 64 == 0
      ensures StateRegs(state) == Absorb(INITIAL, (m + input)[..p])
      ensures index' <= 64 && buffer[..index'] + input[i..] == (m + input)[p..]
    {
      hide Absorb, Compress, StateRegs, NoWrap;
      ghost var n, all := |m|, m + input;
      var partLen := 64 - index;
      BoundaryBelow(n);
      if |input| >= partLen {
        Memcpy(buffer, index, input[..partLen]);
        assert buffer[..] == buffer[..index] + buffer[index..index + partLen];
        assert buffer[..] == all[n - index..n + partLen];
        assert all[..n - index] == m[..n - index];
        Transform(state, buffer[..]);
        AbsorbNextBlock(INITIAL, all, n - index);
        i := partLen;
        while (i + 63) % UINT32 < |input|
          invariant partLen <= i <= |input| && (n + i) % 64 == 0
          invariant StateRegs(state) == Absorb(INITIAL, all[..n + i])
          decreases |input| - i
        {
          GuardInside(n, |input|, i);
          assert input[i..i + 64] == all[n + i..n + i + 64];
          Transform(state, input[i..i + 64]);
          AbsorbNextBlock(INITIAL, all, n + i);
          i := (i + 64) % UINT32;
        }
        GuardInside(n, |input|, i);
        index', p := 0, n + i;
        assert input[i..] == all[p..];
      } else {
        i, index', p := 0, index, n - index;
        assert all[..n - index] == m[..n - index];
      }
    }

    method Final(digest: array<Uint8>)
      requires Valid() && digest.Length == 16
      requires digest as object !in {this, state, count, buffer}
      modifies this`absorbed, state, count, buffer, digest
      ensures digest[..] == Digest(old(absorbed))
      ensures forall k :: 0 <= k < 4 ==> state[k] == 0
      ensures forall k :: 0 <= k < 2 ==> count[k] == 0
      ensures forall k :: 0 <= k < 64 ==> buffer[k] == 0
    {
      AppendPadding();
      hide Absorb, Padded, Counts;
      assert absorbed[..|absorbed|] == absorbed;
      assert StateRegs(state) == Absorb(INITIAL, absorbed);
      Encode(digest, state);
      assert state[..] == RegWords(StateRegs(state));
      Zeroize();
    }

    // Padding and the length before padding (sections 3.1 and 3.2).
    method AppendPadding()
      requires Valid()
      modifies this`absorbed, state, count, buffer
      ensures Valid() && absorbed == Padded(old(absorbed))
    {
      hide Absorb, Buffered;
      ghost var m := absorbed;
      var bits := new Uint8[8](_ => 0);
      Encode(bits, count);
      assert count[..] == [count[0], count[1]];
      CountIsLength(count[0], count[1], |m|);
      CountGivesIndex(count[0], count[1], |m|);
      hide Counts, EncodeWords;
      var index := count[0] / 8 % 64;
      var padLen := if index < 56 then 56 - index else 120 - index;
      PadLengthIs(|m|);
      hide PadBits;
      Update(PADDING[..padLen]);
      Update(bits[..]);
    }

    // MD5_memset over the whole context.
    method Zeroize()
      requires Shaped()
      modifies state, count, buffer
      ensures forall k :: 0 <= k < 4 ==> state[k] == 0
      ensures forall k :: 0 <= k < 2 ==> count[k] == 0
      ensures forall k :: 0 <= k < 64 ==> buffer[k] == 0
    {
      forall k | 0 <= k < 4 { state[k] := 0; }
      forall k | 0 <= k < 2 { count[k] := 0; }
      forall k | 0 <= k < 64 { buffer[k] := 0; }
    }
  }

  const PADDING: seq<Uint8> := [0x80] + Zeros(63)

  lemma PadLengthIs(n: nat)
    ensures var index := n % 64;
            var padLen := if index < 56 then 56 - index else 120 - index;
            padLen <= 64 && PADDING[..padLen] == PadBits(n)
  {
    var zeros := (55 - n) % 64;
    assert zeros == if n % 64 < 56 then 55 - n % 64 else 119 - n % 64;
    assert Zeros(63)[..zeros] == Zeros(zeros);
  }

  // ---- Chunk independence ----

  function Flatten(chunks: seq<seq<Uint8>>): seq<Uint8> {
    if chunks == [] then [] else Flatten(chunks[..|chunks| - 1]) + chunks[|chunks| - 1]
  }

  // Every chunk meets MD5Update's length limit at the place where it is absorbed.
  ghost predicate Absorbable(chunks: seq<seq<Uint8>>) {
    forall k :: 0 <= k < |chunks| ==>
      |chunks[k]| < UINT32 && NoWrap(|Flatten(chunks[..k])| % 64, |chunks[k]|)
  }

  lemma ChunkAbsorbable(chunks: seq<seq<Uint8>>, k: nat)
    requires Absorbable(chunks) && k < |chunks|
    ensures |chunks[k]| < UINT32 && NoWrap(|Flatten(chunks[..k])| % 64, |chunks[k]|)
    ensures Flatten(chunks[..k + 1]) == Flatten(chunks[..k]) + chunks[k]
  {
    assert chunks[..k + 1][..k] == chunks[..k];
  }

  lemma NothingFlattened()
    ensures Flatten([]) == []
  {}

  method DigestOfChunks(chunks: seq<seq<Uint8>>) returns (digest: seq<Uint8>)
    requires Absorbable(chunks)
    ensures digest == Digest(Flatten(chunks))
  {
    hide *;
    var context := new Context();
    context.Init();
    NothingFlattened();
    assert chunks[..0] == [];
    var k := 0;
    while k < |chunks|
      invariant 0 <= k <= |chunks|
      invariant context.Valid() && context.absorbed == Flatten(chunks[..k])
      invariant fresh(context) && fresh(context.state) && fresh(context.count) && fresh(context.buffer)
    {
      ChunkAbsorbable(chunks, k);
      context.Update(chunks[k]);
      k := k + 1;
    }
    assert chunks[..k] == chunks;
    var out := new Uint8[16](_ => 0);
    context.Final(out);
    digest := out[..];
  }

  // Chunks of at most 2^32 - 64 bytes are absorbable wherever they fall.
  lemma ShortChunksAbsorbable(chunks: seq<seq<Uint8>>)
    requires forall k :: 0 <= k < |chunks| ==> |chunks[k]| <= UINT32 - 64
    ensures Absorbable(chunks)
  {}
}
