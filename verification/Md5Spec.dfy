/** The MD5 message digest of RFC 1321, sections 3.1 to 3.5, as functions on values. */
module Md5Spec {

  import opened VprTypes

  datatype Regs = Regs(a: Uint32, b: Uint32, c: Uint32, d: Uint32)

  const INITIAL := Regs(0x67452301, 0xefcdab89, 0x98badcfe, 0x10325476)

  // ---- Section 3.4: the auxiliary functions and one operation ----

  function Bits(x: Uint32): bv32 { x as bv32 }
  function Number(b: bv32): Uint32 { b as int }

  function F(x: Uint32, y: Uint32, z: Uint32): Uint32 {
    Number((Bits(x) & Bits(y)) | (!Bits(x) & Bits(z)))
  }

  function G(x: Uint32, y: Uint32, z: Uint32): Uint32 {
    Number((Bits(x) & Bits(z)) | (Bits(y) & !Bits(z)))
  }

  function H(x: Uint32, y: Uint32, z: Uint32): Uint32 {
    Number(Bits(x) ^ Bits(y) ^ Bits(z))
  }

  function I(x: Uint32, y: Uint32, z: Uint32): Uint32 {
    Number(Bits(y) ^ (Bits(x) | !Bits(z)))
  }

  // Addition and subtraction modulo 2^32.
  function Add(x: Uint32, y: Uint32): Uint32 { (x + y) % UINT32 }
  function Sub(x: Uint32, y: Uint32): Uint32 { (x - y) % UINT32 }

  function Power(n: nat): (p: nat)
    ensures p > 0
  {
    if n == 0 then 1 else 2 * Power(n - 1)
  }

  lemma {:induction false} PowerSum(m: nat, n: nat)
    ensures Power(m) * Power(n) == Power(m + n)
  {
    if m > 0 {
      PowerSum(m - 1, n);
      assert Power(m) * Power(n) == 2 * (Power(m - 1) * Power(n));
    }
  }

  lemma Power32()
    ensures Power(32) == UINT32
  {
    assert Power(8) == 256;
    PowerSum(8, 8);
    PowerSum(16, 16);
  }

  // With p * q == 2^32: the upper bits x / q and the lower bits x % q change places.
  lemma RotateParts(x: Uint32, p: nat, q: nat)
    requires p > 0 && q > 0 && p * q == UINT32
    ensures x * p % UINT32 == x % q * p
    ensures 0 <= x / q < p && x % q * p + x / q < UINT32
  {
    var h, l := x / q, x % q;
    assert x == h * q + l;
    assert x * p == h * (p * q) + l * p by {
      assert (h * q + l) * p == h * (p * q) + l * p;
    }
    assert h * q < p * q;
    assert h < p;
    assert l * p <= (q - 1) * p;
    ModOf(x * p, h, l * p);
  }

  lemma ModOf(x: int, k: int, r: int)
    requires x == k * UINT32 + r && 0 <= r < UINT32
    ensures x % UINT32 == r && x / UINT32 == k
  {}

  // (x << n) | (x >> (32 - n)): the two parts have no bit in common, so "or" is a sum.
  function RotateLeft(x: Uint32, n: nat): Uint32
    requires n <= 32
  {
    PowerSum(n, 32 - n);
    Power32();
    RotateParts(x, Power(n), Power(32 - n));
    x * Power(n) % UINT32 + x / Power(32 - n)
  }

  function Mix(round: nat, x: Uint32, y: Uint32, z: Uint32): Uint32 {
    if round == 0 then F(x, y, z)
    else if round == 1 then G(x, y, z)
    else if round == 2 then H(x, y, z)
    else I(x, y, z)
  }

  // b + ((a + mix(b, c, d) + X[k] + T[i]) <<< s)
  function Operation(round: nat, a: Uint32, b: Uint32, c: Uint32, d: Uint32, x: Uint32, s: nat, t: Uint32): Uint32
    requires s <= 32
  {
    Add(b, RotateLeft(Add(a, Add(Add(Mix(round, b, c, d), x), t)), s))
  }

  // Which word of the block step i reads.
  function WordIndex(i: nat): (k: nat)
    ensures k < 16
  {
    if i < 16 then i
    else if i < 32 then (1 + 5 * i) % 16
    else if i < 48 then (5 + 3 * i) % 16
    else 7 * i % 16
  }

  function ShiftOf(round: nat, column: nat): (s: nat)
    ensures s <= 32
  {
    match (round, column)
    case (0, 0) => 7  case (0, 1) => 12 case (0, 2) => 17 case (0, _) => 22
    case (1, 0) => 5  case (1, 1) => 9  case (1, 2) => 14 case (1, _) => 20
    case (2, 0) => 4  case (2, 1) => 11 case (2, 2) => 16 case (2, _) => 23
    case (_, 0) => 6  case (_, 1) => 10 case (_, 2) => 15 case (_, _) => 21
  }

  // The table T of section 3.4, counted from zero, one function per round.
  function ConstantOne(j: int): Uint32 {
    match j
    case 0 => 0xd76aa478  case 1 => 0xe8c7b756  case 2 => 0x242070db  case 3 => 0xc1bdceee
    case 4 => 0xf57c0faf  case 5 => 0x4787c62a  case 6 => 0xa8304613  case 7 => 0xfd469501
    case 8 => 0x698098d8  case 9 => 0x8b44f7af  case 10 => 0xffff5bb1  case 11 => 0x895cd7be
    case 12 => 0x6b901122  case 13 => 0xfd987193  case 14 => 0xa679438e  case _ => 0x49b40821
  }

  function ConstantTwo(j: int): Uint32 {
    match j
    case 0 => 0xf61e2562  case 1 => 0xc040b340  case 2 => 0x265e5a51  case 3 => 0xe9b6c7aa
    case 4 => 0xd62f105d  case 5 => 0x2441453  case 6 => 0xd8a1e681  case 7 => 0xe7d3fbc8
    case 8 => 0x21e1cde6  case 9 => 0xc33707d6  case 10 => 0xf4d50d87  case 11 => 0x455a14ed
    case 12 => 0xa9e3e905  case 13 => 0xfcefa3f8  case 14 => 0x676f02d9  case _ => 0x8d2a4c8a
  }

  function ConstantThree(j: int): Uint32 {
    match j
    case 0 => 0xfffa3942  case 1 => 0x8771f681  case 2 => 0x6d9d6122  case 3 => 0xfde5380c
    case 4 => 0xa4beea44  case 5 => 0x4bdecfa9  case 6 => 0xf6bb4b60  case 7 => 0xbebfbc70
    case 8 => 0x289b7ec6  case 9 => 0xeaa127fa  case 10 => 0xd4ef3085  case 11 => 0x4881d05
    case 12 => 0xd9d4d039  case 13 => 0xe6db99e5  case 14 => 0x1fa27cf8  case _ => 0xc4ac5665
  }

  function ConstantFour(j: int): Uint32 {
    match j
    case 0 => 0xf4292244  case 1 => 0x432aff97  case 2 => 0xab9423a7  case 3 => 0xfc93a039
    case 4 => 0x655b59c3  case 5 => 0x8f0ccc92  case 6 => 0xffeff47d  case 7 => 0x85845dd1
    case 8 => 0x6fa87e4f  case 9 => 0xfe2ce6e0  case 10 => 0xa3014314  case 11 => 0x4e0811a1
    case 12 => 0xf7537e82  case 13 => 0xbd3af235  case 14 => 0x2ad7d2bb  case _ => 0xeb86d391
  }

  function Constant(i: nat): Uint32 {
    if i < 16 then ConstantOne(i)
    else if i < 32 then ConstantTwo(i - 16)
    else if i < 48 then ConstantThree(i - 32)
    else ConstantFour(i - 48)
  }

  // Step i of the uniform loop: one operation, then the four registers rotate.
  function Step(i: nat, x: seq<Uint32>, r: Regs): Regs
    requires |x| == 16
  {
    Regs(r.d,
         Operation(i / 16, r.a, r.b, r.c, r.d, x[WordIndex(i)], ShiftOf(i / 16, i % 4), Constant(i)),
         r.b, r.c)
  }

  // The first n steps.
  function Rounds(n: nat, x: seq<Uint32>, r: Regs): Regs
    requires |x| == 16
  {
    if n == 0 then r else Step(n - 1, x, Rounds(n - 1, x, r))
  }

  // ---- Bytes and words, low-order byte first (section 2) ----

  function WordOf(b0: Uint8, b1: Uint8, b2: Uint8, b3: Uint8): Uint32 {
    b0 as int + 0x100 * b1 as int + 0x1_0000 * b2 as int + 0x100_0000 * b3 as int
  }

  function BytesOf(w: Uint32): (b: seq<Uint8>)
    ensures |b| == 4
  {
    [(w % 0x100) as Uint8, (w / 0x100 % 0x100) as Uint8,
     (w / 0x1_0000 % 0x100) as Uint8, (w / 0x100_0000 % 0x100) as Uint8]
  }

  function EncodeWords(words: seq<Uint32>): (b: seq<Uint8>)
    ensures |b| == 4 * |words|
  {
    if words == [] then [] else EncodeWords(words[..|words| - 1]) + BytesOf(words[|words| - 1])
  }

  function DecodeAt(block: seq<Uint8>, i: nat): Uint32
    requires 4 * i + 4 <= |block|
  {
    WordOf(block[4 * i], block[4 * i + 1], block[4 * i + 2], block[4 * i + 3])
  }

  function BlockWords(block: seq<Uint8>): (x: seq<Uint32>)
    requires |block| == 64
    ensures |x| == 16
  {
    seq(16, i requires 0 <= i < 16 => DecodeAt(block, i))
  }

  // ---- Compression, padding and the digest ----

  // Four rounds of sixteen.
  const STEPS: nat := 64

  function Compress(r: Regs, block: seq<Uint8>): Regs
    requires |block| == 64
  {
    var x := BlockWords(block);
    var q := Rounds(STEPS, x, r);
    Regs(Add(r.a, q.a), Add(r.b, q.b), Add(r.c, q.c), Add(r.d, q.d))
  }

  // Chains the compression over the whole 64-byte blocks of m.
  function Absorb(r: Regs, m: seq<Uint8>): Regs
    decreases |m|
  {
    if |m| < 64 then r else Absorb(Compress(r, m[..64]), m[64..])
  }

  function Zeros(n: nat): (z: seq<Uint8>)
    ensures |z| == n
  {
    seq(n, _ => 0)
  }

  // Section 3.1: a single 1 bit, then zeros up to 56 bytes modulo 64.
  function PadBits(n: nat): (p: seq<Uint8>)
    ensures (n + |p|) % 64 == 56 && 1 <= |p| <= 64
  {
    [0x80] + Zeros((55 - n) % 64)
  }

  // Section 3.2: the length of the message in bits, two words, low-order first.
  function LengthBytes(n: nat): (b: seq<Uint8>)
    ensures |b| == 8
  {
    EncodeWords([8 * n % UINT64 % UINT32, 8 * n % UINT64 / UINT32])
  }

  function Padded(m: seq<Uint8>): (p: seq<Uint8>)
    ensures |p| % 64 == 0
  {
    m + PadBits(|m|) + LengthBytes(|m|)
  }

  function RegWords(r: Regs): seq<Uint32> {
    [r.a, r.b, r.c, r.d]
  }

  function Digest(m: seq<Uint8>): seq<Uint8> {
    EncodeWords(RegWords(Absorb(INITIAL, Padded(m))))
  }
}
