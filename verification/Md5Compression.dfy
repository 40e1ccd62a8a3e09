/** MD5Transform: the unrolled compression refines the uniform loop, and the loop can be undone. */
module Md5Compression {
  import opened Md5Spec
  import opened VprTypes

  // The shift amounts of the four rounds.
  const S11: nat := 7
  const S12: nat := 12
  const S13: nat := 17
  const S14: nat := 22
  const S21: nat := 5
  const S22: nat := 9
  const S23: nat := 14
  const S24: nat := 20
  const S31: nat := 4
  const S32: nat := 11
  const S33: nat := 16
  const S34: nat := 23
  const S41: nat := 6
  const S42: nat := 10
  const S43: nat := 15
  const S44: nat := 21

  // Steps from .. from + n - 1.
  function Between(from: nat, n: nat, x: seq<Uint32>, r: Regs): Regs
    requires |x| == 16
  {
    if n == 0 then r else Step(from + n - 1, x, Between(from, n - 1, x, r))
  }

  lemma AddCommutes(x: Uint32, y: Uint32)
    ensures Add(x, y) == Add(y, x)
  {}

  lemma BetweenFour(i: nat, n: nat, x: seq<Uint32>, r: Regs)
    requires |x| == 16
    ensures Between(i, n + 4, x, r) ==
            Step(i + n + 3, x, Step(i + n + 2, x, Step(i + n + 1, x, Step(i + n, x, Between(i, n, x, r)))))
  {
    hide Step;
    assert Between(i, n + 2, x, r) == Step(i + n + 1, x, Between(i, n + 1, x, r));
    assert Between(i, n + 3, x, r) == Step(i + n + 2, x, Between(i, n + 2, x, r));
  }

  lemma BetweenSixteen(i: nat, x: seq<Uint32>, r: Regs)
    requires |x| == 16
    ensures Between(i, 16, x, r) ==
            var r4 := Step(i + 3, x, Step(i + 2, x, Step(i + 1, x, Step(i, x, r))));
            var r8 := Step(i + 7, x, Step(i + 6, x, Step(i + 5, x, Step(i + 4, x, r4))));
            var r12 := Step(i + 11, x, Step(i + 10, x, Step(i + 9, x, Step(i + 8, x, r8))));
            Step(i + 15, x, Step(i + 14, x, Step(i + 13, x, Step(i + 12, x, r12))))
  {
    hide Step;
    BetweenFour(i, 0, x, r);
    BetweenFour(i, 4, x, r);
    BetweenFour(i, 8, x, r);
    BetweenFour(i, 12, x, r);
  }

  lemma {:induction false} BetweenContinues(from: nat, n: nat, x: seq<Uint32>, r: Regs)
    requires |x| == 16
    ensures Between(from, n, x, Rounds(from, x, r)) == Rounds(from + n, x, r)
  {
    hide Step;
    if n > 0 {
      BetweenContinues(from, n - 1, x, r);
    }
  }

  function FF(a: Uint32, b: Uint32, c: Uint32, d: Uint32, x: Uint32, s: nat, ac: Uint32): Uint32
    requires s <= 32
  {
    Add(RotateLeft(Add(a, Add(Add(F(b, c, d), x), ac)), s), b)
  }

  lemma FFIsOperation()
    ensures forall a, b, c, d, x, s, ac {:trigger FF(a, b, c, d, x, s, ac)} | s <= 32 ::
              FF(a, b, c, d, x, s, ac) == Operation(0, a, b, c, d, x, s, ac)
  {
    hide RotateLeft, Add, F;
    forall a, b, c, d, x, s, ac | s <= 32
      ensures FF(a, b, c, d, x, s, ac) == Operation(0, a, b, c, d, x, s, ac)
    {
      AddCommutes(b, RotateLeft(Add(a, Add(Add(F(b, c, d), x), ac)), s));
    }
  }

  function GG(a: Uint32, b: Uint32, c: Uint32, d: Uint32, x: Uint32, s: nat, ac: Uint32): Uint32
    requires s <= 32
  {
    Add(RotateLeft(Add(a, Add(Add(G(b, c, d), x), ac)), s), b)
  }

  lemma GGIsOperation()
    ensures forall a, b, c, d, x, s, ac {:trigger GG(a, b, c, d, x, s, ac)} | s <= 32 ::
              GG(a, b, c, d, x, s, ac) == Operation(1, a, b, c, d, x, s, ac)
  {
    hide RotateLeft, Add, G;
    forall a, b, c, d, x, s, ac | s <= 32
      ensures GG(a, b, c, d, x, s, ac) == Operation(1, a, b, c, d, x, s, ac)
    {
      AddCommutes(b, RotateLeft(Add(a, Add(Add(G(b, c, d), x), ac)), s));
    }
  }

  function HH(a: Uint32, b: Uint32, c: Uint32, d: Uint32, x: Uint32, s: nat, ac: Uint32): Uint32
    requires s <= 32
  {
    Add(RotateLeft(Add(a, Add(Add(H(b, c, d), x), ac)), s), b)
  }

  lemma HHIsOperation()
    ensures forall a, b, c, d, x, s, ac {:trigger HH(a, b, c, d, x, s, ac)} | s <= 32 ::
              HH(a, b, c, d, x, s, ac) == Operation(2, a, b, c, d, x, s, ac)
  {
    hide RotateLeft, Add, H;
    forall a, b, c, d, x, s, ac | s <= 32
      ensures HH(a, b, c, d, x, s, ac) == Operation(2, a, b, c, d, x, s, ac)
    {
      AddCommutes(b, RotateLeft(Add(a, Add(Add(H(b, c, d), x), ac)), s));
    }
  }

  function II(a: Uint32, b: Uint32, c: Uint32, d: Uint32, x: Uint32, s: nat, ac: Uint32): Uint32
    requires s <= 32
  {
    Add(RotateLeft(Add(a, Add(Add(I(b, c, d), x), ac)), s), b)
  }

  lemma IIIsOperation()
    ensures forall a, b, c, d, x, s, ac {:trigger II(a, b, c, d, x, s, ac)} | s <= 32 ::
              II(a, b, c, d, x, s, ac) == Operation(3, a, b, c, d, x, s, ac)
  {
    hide RotateLeft, Add, I;
    forall a, b, c, d, x, s, ac | s <= 32
      ensures II(a, b, c, d, x, s, ac) == Operation(3, a, b, c, d, x, s, ac)
    {
      AddCommutes(b, RotateLeft(Add(a, Add(Add(I(b, c, d), x), ac)), s));
    }
  }

  method RoundOne(a0: Uint32, b0: Uint32, c0: Uint32, d0: Uint32, x: seq<Uint32>)
    returns (a: Uint32, b: Uint32, c: Uint32, d: Uint32)
    requires |x| == 16
    ensures Regs(a, b, c, d) == Between(0, 16, x, Regs(a0, b0, c0, d0))
  {
    FFIsOperation();
    hide FF, Operation;
    a, b, c, d := a0, b0, c0, d0;
    ghost var s := Regs(a, b, c, d);
    a := FF(a, b, c, d, x[0], S11, 0xd76aa478); s := Step(0, x, s); assert s == Regs(d, a, b, c);
    d := FF(d, a, b, c, x[1], S12, 0xe8c7b756); s := Step(1, x, s); assert s == Regs(c, d, a, b);
    c := FF(c, d, a, b, x[2], S13, 0x242070db); s := Step(2, x, s); assert s == Regs(b, c, d, a);
    b := FF(b, c, d, a, x[3], S14, 0xc1bdceee); s := Step(3, x, s); assert s == Regs(a, b, c, d);
    a := FF(a, b, c, d, x[4], S11, 0xf57c0faf); s := Step(4, x, s); assert s == Regs(d, a, b, c);
    d := FF(d, a, b, c, x[5], S12, 0x4787c62a); s := Step(5, x, s); assert s == Regs(c, d, a, b);
    c := FF(c, d, a, b, x[6], S13, 0xa8304613); s := Step(6, x, s); assert s == Regs(b, c, d, a);
    b := FF(b, c, d, a, x[7], S14, 0xfd469501); s := Step(7, x, s); assert s == Regs(a, b, c, d);
    a := FF(a, b, c, d, x[8], S11, 0x698098d8); s := Step(8, x, s); assert s == Regs(d, a, b, c);
    d := FF(d, a, b, c, x[9], S12, 0x8b44f7af); s := Step(9, x, s); assert s == Regs(c, d, a, b);
    c := FF(c, d, a, b, x[10], S13, 0xffff5bb1); s := Step(10, x, s); assert s == Regs(b, c, d, a);
    b := FF(b, c, d, a, x[11], S14, 0x895cd7be); s := Step(11, x, s); assert s == Regs(a, b, c, d);
    a := FF(a, b, c, d, x[12], S11, 0x6b901122); s := Step(12, x, s); assert s == Regs(d, a, b, c);
    d := FF(d, a, b, c, x[13], S12, 0xfd987193); s := Step(13, x, s); assert s == Regs(c, d, a, b);
    c := FF(c, d, a, b, x[14], S13, 0xa679438e); s := Step(14, x, s); assert s == Regs(b, c, d, a);
    b := FF(b, c, d, a, x[15], S14, 0x49b40821); s := Step(15, x, s); assert s == Regs(a, b, c, d);
    BetweenSixteen(0, x, Regs(a0, b0, c0, d0));
  }

  method RoundTwo(a0: Uint32, b0: Uint32, c0: Uint32, d0: Uint32, x: seq<Uint32>)
    returns (a: Uint32, b: Uint32, c: Uint32, d: Uint32)
    requires |x| == 16
    ensures Regs(a, b, c, d) == Between(16, 16, x, Regs(a0, b0, c0, d0))
  {
    GGIsOperation();
    hide GG, Operation;
    a, b, c, d := a0, b0, c0, d0;
    ghost var s := Regs(a, b, c, d);
    a := GG(a, b, c, d, x[1], S21, 0xf61e2562); s := Step(16, x, s); assert s == Regs(d, a, b, c);
    d := GG(d, a, b, c, x[6], S22, 0xc040b340); s := Step(17, x, s); assert s == Regs(c, d, a, b);
    c := GG(c, d, a, b, x[11], S23, 0x265e5a51); s := Step(18, x, s); assert s == Regs(b, c, d, a);
    b := GG(b, c, d, a, x[0], S24, 0xe9b6c7aa); s := Step(19, x, s); assert s == Regs(a, b, c, d);
    a := GG(a, b, c, d, x[5], S21, 0xd62f105d); s := Step(20, x, s); assert s == Regs(d, a, b, c);
    d := GG(d, a, b, c, x[10], S22, 0x2441453); s := Step(21, x, s); assert s == Regs(c, d, a, b);
    c := GG(c, d, a, b, x[15], S23, 0xd8a1e681); s := Step(22, x, s); assert s == Regs(b, c, d, a);
    b := GG(b, c, d, a, x[4], S24, 0xe7d3fbc8); s := Step(23, x, s); assert s == Regs(a, b, c, d);
    a := GG(a, b, c, d, x[9], S21, 0x21e1cde6); s := Step(24, x, s); assert s == Regs(d, a, b, c);
    d := GG(d, a, b, c, x[14], S22, 0xc33707d6); s := Step(25, x, s); assert s == Regs(c, d, a, b);
    c := GG(c, d, a, b, x[3], S23, 0xf4d50d87); s := Step(26, x, s); assert s == Regs(b, c, d, a);
    b := GG(b, c, d, a, x[8], S24, 0x455a14ed); s := Step(27, x, s); assert s == Regs(a, b, c, d);
    a := GG(a, b, c, d, x[13], S21, 0xa9e3e905); s := Step(28, x, s); assert s == Regs(d, a, b, c);
    d := GG(d, a, b, c, x[2], S22, 0xfcefa3f8); s := Step(29, x, s); assert s == Regs(c, d, a, b);
    c := GG(c, d, a, b, x[7], S23, 0x676f02d9); s := Step(30, x, s); assert s == Regs(b, c, d, a);
    b := GG(b, c, d, a, x[12], S24, 0x8d2a4c8a); s := Step(31, x, s); assert s == Regs(a, b, c, d);
    BetweenSixteen(16, x, Regs(a0, b0, c0, d0));
  }

  method RoundThree(a0: Uint32, b0: Uint32, c0: Uint32, d0: Uint32, x: seq<Uint32>)
    returns (a: Uint32, b: Uint32, c: Uint32, d: Uint32)
    requires |x| == 16
    ensures Regs(a, b, c, d) == Between(32, 16, x, Regs(a0, b0, c0, d0))
  {
    HHIsOperation();
    hide HH, Operation;
    a, b, c, d := a0, b0, c0, d0;
    ghost var s := Regs(a, b, c, d);
    a := HH(a, b, c, d, x[5], S31, 0xfffa3942); s := Step(32, x, s); assert s == Regs(d, a, b, c);
    d := HH(d, a, b, c, x[8], S32, 0x8771f681); s := Step(33, x, s); assert s == Regs(c, d, a, b);
    c := HH(c, d, a, b, x[11], S33, 0x6d9d6122); s := Step(34, x, s); assert s == Regs(b, c, d, a);
    b := HH(b, c, d, a, x[14], S34, 0xfde5380c); s := Step(35, x, s); assert s == Regs(a, b, c, d);
    a := HH(a, b, c, d, x[1], S31, 0xa4beea44); s := Step(36, x, s); assert s == Regs(d, a, b, c);
    d := HH(d, a, b, c, x[4], S32, 0x4bdecfa9); s := Step(37, x, s); assert s == Regs(c, d, a, b);
    c := HH(c, d, a, b, x[7], S33, 0xf6bb4b60); s := Step(38, x, s); assert s == Regs(b, c, d, a);
    b := HH(b, c, d, a, x[10], S34, 0xbebfbc70); s := Step(39, x, s); assert s == Regs(a, b, c, d);
    a := HH(a, b, c, d, x[13], S31, 0x289b7ec6); s := Step(40, x, s); assert s == Regs(d, a, b, c);
    d := HH(d, a, b, c, x[0], S32, 0xeaa127fa); s := Step(41, x, s); assert s == Regs(c, d, a, b);
    c := HH(c, d, a, b, x[3], S33, 0xd4ef3085); s := Step(42, x, s); assert s == Regs(b, c, d, a);
    b := HH(b, c, d, a, x[6], S34, 0x4881d05); s := Step(43, x, s); assert s == Regs(a, b, c, d);
    a := HH(a, b, c, d, x[9], S31, 0xd9d4d039); s := Step(44, x, s); assert s == Regs(d, a, b, c);
    d := HH(d, a, b, c, x[12], S32, 0xe6db99e5); s := Step(45, x, s); assert s == Regs(c, d, a, b);
    c := HH(c, d, a, b, x[15], S33, 0x1fa27cf8); s := Step(46, x, s); assert s == Regs(b, c, d, a);
    b := HH(b, c, d, a, x[2], S34, 0xc4ac5665); s := Step(47, x, s); assert s == Regs(a, b, c, d);
    BetweenSixteen(32, x, Regs(a0, b0, c0, d0));
  }

  method RoundFour(a0: Uint32, b0: Uint32, c0: Uint32, d0: Uint32, x: seq<Uint32>)
    returns (a: Uint32, b: Uint32, c: Uint32, d: Uint32)
    requires |x| == 16
    ensures Regs(a, b, c, d) == Between(48, 16, x, Regs(a0, b0, c0, d0))
  {
    IIIsOperation();
    hide II, Operation;
    a, b, c, d := a0, b0, c0, d0;
    ghost var s := Regs(a, b, c, d);
    a := II(a, b, c, d, x[0], S41, 0xf4292244); s := Step(48, x, s); assert s == Regs(d, a, b, c);
    d := II(d, a, b, c, x[7], S42, 0x432aff97); s := Step(49, x, s); assert s == Regs(c, d, a, b);
    c := II(c, d, a, b, x[14], S43, 0xab9423a7); s := Step(50, x, s); assert s == Regs(b, c, d, a);
    b := II(b, c, d, a, x[5], S44, 0xfc93a039); s := Step(51, x, s); assert s == Regs(a, b, c, d);
    a := II(a, b, c, d, x[12], S41, 0x655b59c3); s := Step(52, x, s); assert s == Regs(d, a, b, c);
    d := II(d, a, b, c, x[3], S42, 0x8f0ccc92); s := Step(53, x, s); assert s == Regs(c, d, a, b);
    c := II(c, d, a, b, x[10], S43, 0xffeff47d); s := Step(54, x, s); assert s == Regs(b, c, d, a);
    b := II(b, c, d, a, x[1], S44, 0x85845dd1); s := Step(55, x, s); assert s == Regs(a, b, c, d);
    a := II(a, b, c, d, x[8], S41, 0x6fa87e4f); s := Step(56, x, s); assert s == Regs(d, a, b, c);
    d := II(d, a, b, c, x[15], S42, 0xfe2ce6e0); s := Step(57, x, s); assert s == Regs(c, d, a, b);
    c := II(c, d, a, b, x[6], S43, 0xa3014314); s := Step(58, x, s); assert s == Regs(b, c, d, a);
    b := II(b, c, d, a, x[13], S44, 0x4e0811a1); s := Step(59, x, s); assert s == Regs(a, b, c, d);
    a := II(a, b, c, d, x[4], S41, 0xf7537e82); s := Step(60, x, s); assert s == Regs(d, a, b, c);
    d := II(d, a, b, c, x[11], S42, 0xbd3af235); s := Step(61, x, s); assert s == Regs(c, d, a, b);
    c := II(c, d, a, b, x[2], S43, 0x2ad7d2bb); s := Step(62, x, s); assert s == Regs(b, c, d, a);
    b := II(b, c, d, a, x[9], S44, 0xeb86d391); s := Step(63, x, s); assert s == Regs(a, b, c, d);
    BetweenSixteen(48, x, Regs(a0, b0, c0, d0));
  }

  method Decode(output: array<Uint32>, input: seq<Uint8>)
    requires |input| == 4 * output.Length
    modifies output
    ensures forall k :: 0 <= k < output.Length ==> output[k] == DecodeAt(input, k)
  {
    hide WordOf;
    var i, j := 0, 0;
    while j < |input|
      invariant j == 4 * i && 0 <= i <= output.Length
      invariant forall k :: 0 <= k < i ==> output[k] == DecodeAt(input, k)
    {
      output[i] := WordOf(input[j], input[j + 1], input[j + 2], input[j + 3]);
      i, j := i + 1, j + 4;
    }
  }

  function StateRegs(state: array<Uint32>): Regs
    requires state.Length == 4
    reads state
  {
    Regs(state[0], state[1], state[2], state[3])
  }

  method Transform(state: array<Uint32>, block: seq<Uint8>)
    requires state.Length == 4 && |block| == 64
    modifies state
    ensures StateRegs(state) == Compress(old(StateRegs(state)), block)
  {
    hide Step;
    var x := new Uint32[16](_ => 0);
    Decode(x, block);
    assert x[..] == BlockWords(block);
    ghost var r := StateRegs(state);
    var a, b, c, d := state[0], state[1], state[2], state[3];
    a, b, c, d := RoundOne(a, b, c, d, x[..]);
    BetweenContinues(0, 16, x[..], r);
    a, b, c, d := RoundTwo(a, b, c, d, x[..]);
    BetweenContinues(16, 16, x[..], r);
    a, b, c, d := RoundThree(a, b, c, d, x[..]);
    BetweenContinues(32, 16, x[..], r);
    a, b, c, d := RoundFour(a, b, c, d, x[..]);
    BetweenContinues(48, 16, x[..], r);
    hide Add;
    state[0] := Add(state[0], a);
    state[1] := Add(state[1], b);
    state[2] := Add(state[2], c);
    state[3] := Add(state[3], d);
  }

  // ---- The compression before the feed-forward addition is a bijection ----

  function UndoStep(i: nat, x: seq<Uint32>, r: Regs): Regs
    requires |x| == 16
  {
    var added := Add(Add(Mix(i / 16, r.c, r.d, r.a), x[WordIndex(i)]), Constant(i));
    Regs(Sub(RotateLeft(Sub(r.b, r.c), 32 - ShiftOf(i / 16, i % 4)), added), r.c, r.d, r.a)
  }

  function UndoRounds(n: nat, x: seq<Uint32>, r: Regs): Regs
    requires |x| == 16
  {
    if n == 0 then r else UndoRounds(n - 1, x, UndoStep(n - 1, x, r))
  }

  lemma AddThenSub(x: Uint32, y: Uint32)
    ensures Sub(Add(x, y), y) == x
  {}

  lemma SubThenAdd(x: Uint32, y: Uint32)
    ensures Add(Sub(x, y), y) == x
  {}

  lemma RotatePartsBack(x: Uint32, y: Uint32, p: nat, q: nat)
    requires p > 0 && q > 0 && p * q == UINT32 && y == x * p % UINT32 + x / q
    ensures y * q % UINT32 + y / p == x
  {
    RotateParts(x, p, q);
    DivModOf(y, p, x % q, x / q);
    assert q * p == p * q;
    RotateParts(y, q, p);
    assert x == x / q * q + x % q;
  }

  lemma DivModOf(y: nat, p: nat, k: nat, r: nat)
    requires p > 0 && y == k * p + r && r < p
    ensures y / p == k && y % p == r
  {
    assert y == y / p * p + y % p;
    MultiplesApart(y / p, k, p);
    MultiplesApart(k, y / p, p);
  }

  lemma {:induction false} MultiplesApart(m: int, n: int, p: nat)
    ensures m > n ==> m * p >= n * p + p
    decreases m - n
  {
    if m > n {
      assert m * p == (m - 1) * p + p;
      MultiplesApart(m - 1, n, p);
    }
  }

  // Rotating on by the remaining bits comes back to the same word.
  lemma RotateBack(x: Uint32, n: nat)
    requires n <= 32
    ensures RotateLeft(RotateLeft(x, n), 32 - n) == x
  {
    PowerSum(n, 32 - n);
    Power32();
    var y := RotateLeft(x, n);
    var p, q := Power(n), Power(32 - n);
    assert y == x * p % UINT32 + x / q;
    assert RotateLeft(y, 32 - n) == y * q % UINT32 + y / p by {
      assert 32 - (32 - n) == n;
    }
    hide RotateLeft;
    RotatePartsBack(x, y, p, q);
  }

  lemma StepBijective(i: nat, x: seq<Uint32>, r: Regs)
    requires |x| == 16
    ensures UndoStep(i, x, Step(i, x, r)) == r
    ensures Step(i, x, UndoStep(i, x, r)) == r
  {
    hide Mix, Add, Sub, RotateLeft, WordIndex, ShiftOf, Constant;
    var s := ShiftOf(i / 16, i % 4);
    var k := Add(Add(Mix(i / 16, r.b, r.c, r.d), x[WordIndex(i)]), Constant(i));
    AddCommutes(r.b, RotateLeft(Add(r.a, k), s));
    AddThenSub(RotateLeft(Add(r.a, k), s), r.b);
    RotateBack(Add(r.a, k), s);
    AddThenSub(r.a, k);
    var k' := Add(Add(Mix(i / 16, r.c, r.d, r.a), x[WordIndex(i)]), Constant(i));
    SubThenAdd(RotateLeft(Sub(r.b, r.c), 32 - s), k');
    RotateBack(Sub(r.b, r.c), 32 - s);
    AddCommutes(r.c, Sub(r.b, r.c));
    SubThenAdd(r.b, r.c);
  }

  lemma {:induction false} RoundsBijective(n: nat, x: seq<Uint32>, r: Regs)
    requires |x| == 16
    ensures UndoRounds(n, x, Rounds(n, x, r)) == r
    ensures Rounds(n, x, UndoRounds(n, x, r)) == r
  {
    hide Step, UndoStep;
    if n > 0 {
      StepBijective(n - 1, x, Rounds(n - 1, x, r));
      RoundsBijective(n - 1, x, r);
      StepBijective(n - 1, x, r);
      RoundsBijective(n - 1, x, UndoStep(n - 1, x, r));
    }
  }
}
