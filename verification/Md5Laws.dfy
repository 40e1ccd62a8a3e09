/** What the functions of the digest compute, bit by bit and byte by byte, in terms of literal positions. */
module Md5Laws {
  import opened Md5Spec
  import opened Md5Compression
  import opened VprTypes

  lemma BitsBack(b: bv32)
    ensures Bits(Number(b)) == b
  {}

  // F takes each bit from y where x has a one and from z where x has a zero.
  lemma FSelects(x: Uint32, y: Uint32, z: Uint32)
    ensures Bits(F(x, y, z)) & Bits(x) == Bits(y) & Bits(x)
    ensures Bits(F(x, y, z)) & !Bits(x) == Bits(z) & !Bits(x)
  {
    hide Bits, Number;
    BitsBack((Bits(x) & Bits(y)) | (!Bits(x) & Bits(z)));
  }

  // G takes each bit from x where z has a one and from y where z has a zero.
  lemma GSelects(x: Uint32, y: Uint32, z: Uint32)
    ensures Bits(G(x, y, z)) & Bits(z) == Bits(x) & Bits(z)
    ensures Bits(G(x, y, z)) & !Bits(z) == Bits(y) & !Bits(z)
  {
    hide Bits, Number;
    BitsBack((Bits(x) & Bits(z)) | (Bits(y) & !Bits(z)));
  }

  // H has a one where an odd number of the three have: it is z where x and y agree, and else the opposite.
  lemma HIsParity(x: Uint32, y: Uint32, z: Uint32)
    ensures Bits(H(x, y, z)) & (Bits(x) ^ Bits(y)) == !Bits(z) & (Bits(x) ^ Bits(y))
    ensures Bits(H(x, y, z)) & !(Bits(x) ^ Bits(y)) == Bits(z) & !(Bits(x) ^ Bits(y))
  {
    hide Bits, Number;
    BitsBack(Bits(x) ^ Bits(y) ^ Bits(z));
  }

  // I turns over the bits of y, except where x has a zero and z a one.
  lemma ITurnsOver(x: Uint32, y: Uint32, z: Uint32)
    ensures Bits(I(x, y, z)) & (!Bits(x) & Bits(z)) == Bits(y) & (!Bits(x) & Bits(z))
    ensures Bits(I(x, y, z)) & !(!Bits(x) & Bits(z)) == !Bits(y) & !(!Bits(x) & Bits(z))
  {
    hide Bits, Number;
    BitsBack(Bits(y) ^ (Bits(x) | !Bits(z)));
  }

  // Rotating moves the upper n bits below the others.
  lemma RotateMoves(upper: nat, lower: nat, n: nat)
    requires n <= 32 && upper < Power(n) && lower < Power(32 - n)
    requires upper * Power(32 - n) + lower < UINT32
    ensures RotateLeft(upper * Power(32 - n) + lower, n) == lower * Power(n) + upper
  {
    var p, q, x := Power(n), Power(32 - n), upper * Power(32 - n) + lower;
    PowerSum(n, 32 - n);
    Power32();
    RotateParts(x, p, q);
    DivModOf(x, q, upper, lower);
  }

  // Within each round the words are taken at the distances 1, 5, 3 and 7, from the words 0, 1, 5 and 0 on.
  lemma WordsInTurn(i: nat)
    ensures WordIndex(0) == 0 && WordIndex(16) == 1 && WordIndex(32) == 5 && WordIndex(48) == 0
    ensures i < 63 && (i + 1) % 16 != 0 ==>
              WordIndex(i + 1) ==
                (WordIndex(i) + if i < 16 then 1 else if i < 32 then 5 else if i < 48 then 3 else 7) % 16
  {
    TurnOn(1 + 5 * i, 5);
    TurnOn(5 + 3 * i, 3);
    TurnOn(7 * i, 7);
  }

  lemma TurnOn(k: nat, d: nat)
    ensures (k + d) % 16 == (k % 16 + d) % 16
  {
    assert k == 16 * (k / 16) + k % 16;
  }

  // Every word is written with its lowest byte first.
  lemma {:induction false} LittleEndian(words: seq<Uint32>, i: nat)
    requires i < |words|
    ensures var b := EncodeWords(words);
            && b[4 * i] == words[i] % 0x100 && b[4 * i + 1] == words[i] / 0x100 % 0x100
            && b[4 * i + 2] == words[i] / 0x1_0000 % 0x100 && b[4 * i + 3] == words[i] / 0x100_0000
    decreases |words|
  {
    if i < |words| - 1 {
      LittleEndian(words[..|words| - 1], i);
    }
  }

  lemma EncodeFour(a: Uint32, b: Uint32, c: Uint32, d: Uint32)
    ensures EncodeWords([a, b, c, d]) == BytesOf(a) + BytesOf(b) + BytesOf(c) + BytesOf(d)
  {
    hide BytesOf;
    var w: seq<Uint32> := [a, b, c, d];
    assert w[..3] == [a, b, c] && w[..3][..2] == [a, b] && w[..3][..2][..1] == [a] && [a][..0] == [];
    assert EncodeWords([a]) == BytesOf(a);
    assert EncodeWords([a, b]) == BytesOf(a) + BytesOf(b);
    assert EncodeWords([a, b, c]) == BytesOf(a) + BytesOf(b) + BytesOf(c);
  }

  // The registers a digest starts from are the bytes that count up and down.
  lemma InitialBytes()
    ensures EncodeWords(RegWords(INITIAL)) == [0x01, 0x23, 0x45, 0x67, 0x89, 0xab, 0xcd, 0xef,
                                               0xfe, 0xdc, 0xba, 0x98, 0x76, 0x54, 0x32, 0x10]
  {
    EncodeFour(INITIAL.a, INITIAL.b, INITIAL.c, INITIAL.d);
    hide EncodeWords;
  }

  // The eight bytes behind the padding are the number of bits, lowest byte first, whatever the length.
  lemma LengthInBits(n: nat)
    ensures var b, bits := LengthBytes(n), 8 * n;
            && b[0] == bits % 0x100 && b[1] == bits / 0x100 % 0x100
            && b[2] == bits / 0x1_0000 % 0x100 && b[3] == bits / 0x100_0000 % 0x100
            && b[4] == bits / UINT32 % 0x100 && b[5] == bits / UINT32 / 0x100 % 0x100
            && b[6] == bits / UINT32 / 0x1_0000 % 0x100 && b[7] == bits / UINT32 / 0x100_0000 % 0x100
  {
    var bits := 8 * n;
    var words := [bits % UINT64 % UINT32, bits % UINT64 / UINT32];
    LittleEndian(words, 0);
    LittleEndian(words, 1);
    hide EncodeWords;
    assert bits % UINT64 % UINT32 == bits % UINT32 && bits % UINT64 / UINT32 == bits / UINT32 % UINT32;
    BytesOfRest(bits);
    BytesOfRest(bits / UINT32);
  }

  lemma BytesOfRest(x: nat)
    ensures x % UINT32 % 0x100 == x % 0x100 && x % UINT32 / 0x100 % 0x100 == x / 0x100 % 0x100
    ensures x % UINT32 / 0x1_0000 % 0x100 == x / 0x1_0000 % 0x100 && x % UINT32 / 0x100_0000 == x / 0x100_0000 % 0x100
  {
    var q, r := x / UINT32, x % UINT32;
    assert x / 0x100 == 0x100_0000 * q + r / 0x100;
    assert x / 0x1_0000 == 0x1_0000 * q + r / 0x1_0000;
    assert x / 0x100_0000 == 0x100 * q + r / 0x100_0000;
    LowByte(r, 0x100_0000 * q);
    LowByte(r / 0x100, 0x1_0000 * q);
    LowByte(r / 0x1_0000, 0x100 * q);
    LowByte(r / 0x100_0000, q);
  }

  lemma LowByte(r: nat, k: nat)
    ensures (r + 0x100 * k) % 0x100 == r % 0x100
  {}
}
