/** The digest of a message of the test suite of RFC 1321 (appendix A.5), computed step by step. */
module Md5Vector {
  import opened Md5Spec
  import opened Md5Laws
  import opened VprTypes

  // The letters from a to z.
  const ALPHABET: seq<Uint8> := seq(26, k requires 0 <= k < 26 => 97 + k)

  // Its only block: the letters, the padding bit, and the length of 208 bits.
  const WORDS: seq<Uint32> := [0x64636261, 0x68676665, 0x6c6b6a69, 0x706f6e6d,
                               0x74737271, 0x78777675, 0x00807a79, 0x00000000,
                               0x00000000, 0x00000000, 0x00000000, 0x00000000,
                               0x00000000, 0x00000000, 0x000000d0, 0x00000000]

  predicate Powers() {
    && Power(4) == 0x10 && Power(5) == 0x20 && Power(6) == 0x40 && Power(7) == 0x80
    && Power(9) == 0x200 && Power(10) == 0x400 && Power(11) == 0x800 && Power(12) == 0x1000
    && Power(14) == 0x4000 && Power(15) == 0x8000 && Power(16) == 0x10000 && Power(17) == 0x20000
    && Power(18) == 0x40000 && Power(20) == 0x100000 && Power(21) == 0x200000 && Power(22) == 0x400000
    && Power(23) == 0x800000 && Power(25) == 0x2000000 && Power(26) == 0x4000000 && Power(27) == 0x8000000
    && Power(28) == 0x10000000
  }

  lemma PowerNext(n: nat)
    ensures Power(n + 1) == 2 * Power(n)
  {}

  lemma PowerNone()
    ensures Power(0) == 1
  {}

  lemma PowersAre()
    ensures Powers()
  {
    hide Power;
    PowerNone();
    PowerNext(0);
    PowerNext(1);
    PowerNext(2);
    PowerNext(3);
    PowerNext(4);
    PowerNext(5);
    PowerNext(6);
    PowerNext(7);
    PowerNext(8);
    PowerNext(9);
    PowerNext(10);
    PowerNext(11);
    PowerNext(12);
    PowerNext(13);
    PowerNext(14);
    PowerNext(15);
    PowerNext(16);
    PowerNext(17);
    PowerNext(18);
    PowerNext(19);
    PowerNext(20);
    PowerNext(21);
    PowerNext(22);
    PowerNext(23);
    PowerNext(24);
    PowerNext(25);
    PowerNext(26);
    PowerNext(27);
  }

  function State(n: nat): Regs {
    Rounds(n, WORDS, INITIAL)
  }

  // One step, from the values it goes through.
  lemma StepIs(i: nat, r: Regs, mix: Uint32, sum: Uint32, rotated: Uint32, b: Uint32) returns (s: Regs)
    requires State(i) == r && Mix(i / 16, r.b, r.c, r.d) == mix
    requires Add(r.a, Add(Add(mix, WORDS[WordIndex(i)]), Constant(i))) == sum
    requires RotateLeft(sum, ShiftOf(i / 16, i % 4)) == rotated && Add(r.b, rotated) == b
    ensures s == State(i + 1) == Regs(r.d, b, r.b, r.c)
  {
    hide Mix, Add, RotateLeft, WordIndex, ShiftOf, Constant;
    s := State(i + 1);
  }

  lemma TurnsOne()
    ensures RotateLeft(0x3bce06d8, 7) == 0xe7036c1d
    ensures RotateLeft(0x304d3e09, 12) == 0xd3e09304
    ensures RotateLeft(0xf123bbe5, 17) == 0x77cbe247
    ensures RotateLeft(0x18ac848a, 22) == 0x22862b21
    ensures RotateLeft(0xeb72247e, 7) == 0xb9123f75
    ensures RotateLeft(0xaf1a9fbb, 12) == 0xa9fbbaf1
    ensures RotateLeft(0xb842077f, 17) == 0x0eff7084
    ensures RotateLeft(0x2a60448e, 22) == 0x238a9811
    ensures RotateLeft(0x19a7b2db, 7) == 0xd3d96d8c
    ensures RotateLeft(0xce67d494, 12) == 0x7d494ce6
    ensures RotateLeft(0xb14628c6, 17) == 0x518d628c
    ensures RotateLeft(0x0f370366, 22) == 0xd983cdc0
    ensures RotateLeft(0x978109fa, 7) == 0xc084fd4b
    ensures RotateLeft(0xa7a6e01d, 12) == 0x6e01da7a
    ensures RotateLeft(0x7ba2bdc4, 17) == 0x7b88f745
    ensures RotateLeft(0xb7daa57e, 22) == 0x5fadf6a9
  {
    hide Power;
    PowersAre();
  }

  lemma MixesOne()
    ensures F(0xefcdab89, 0x98badcfe, 0x10325476) == 0x98badcfe
    ensures F(0xd6d117a6, 0xefcdab89, 0x98badcfe) == 0xceebcbd8
    ensures F(0xaab1aaaa, 0xd6d117a6, 0xefcdab89) == 0xc7dd03a3
    ensures F(0x227d8cf1, 0xaab1aaaa, 0xd6d117a6) == 0xf6b19ba6
    ensures F(0x4503b812, 0x227d8cf1, 0xaab1aaaa) == 0xaab18ab8
    ensures F(0xfe15f787, 0x4503b812, 0x227d8cf1) == 0x4469b872
    ensures F(0xa811b278, 0xfe15f787, 0x4503b812) == 0xed13ba02
    ensures F(0xb71122fc, 0xa811b278, 0xfe15f787) == 0xe815f77b
  {}

  lemma Steps0()
    requires State(0) == Regs(0x67452301, 0xefcdab89, 0x98badcfe, 0x10325476)
    ensures State(4) == Regs(0xd6d117a6, 0x4503b812, 0x227d8cf1, 0xaab1aaaa)
  {
    hide Power, RotateLeft, State, F, G, H, I;
    TurnsOne();
    MixesOne();
    var r := State(0);
    r := StepIs(0, r, 0x98badcfe, 0x3bce06d8, 0xe7036c1d, 0xd6d117a6);
    r := StepIs(1, r, 0xceebcbd8, 0x304d3e09, 0xd3e09304, 0xaab1aaaa);
    r := StepIs(2, r, 0xc7dd03a3, 0xf123bbe5, 0x77cbe247, 0x227d8cf1);
    r := StepIs(3, r, 0xf6b19ba6, 0x18ac848a, 0x22862b21, 0x4503b812);
  }

  lemma Steps4()
    requires State(4) == Regs(0xd6d117a6, 0x4503b812, 0x227d8cf1, 0xaab1aaaa)
    ensures State(8) == Regs(0xfe15f787, 0xda9bbb0d, 0xb71122fc, 0xa811b278)
  {
    hide Power, RotateLeft, State, F, G, H, I;
    TurnsOne();
    MixesOne();
    var r := State(4);
    r := StepIs(4, r, 0xaab18ab8, 0xeb72247e, 0xb9123f75, 0xfe15f787);
    r := StepIs(5, r, 0x4469b872, 0xaf1a9fbb, 0xa9fbbaf1, 0xa811b278);
    r := StepIs(6, r, 0xed13ba02, 0xb842077f, 0x0eff7084, 0xb71122fc);
    r := StepIs(7, r, 0xe815f77b, 0x2a60448e, 0x238a9811, 0xda9bbb0d);
  }


  lemma MixesTwo()
    ensures F(0xda9bbb0d, 0xb71122fc, 0xa811b278) == 0xb211227c
    ensures F(0xae752899, 0xda9bbb0d, 0xb71122fc) == 0x9b112a6d
    ensures F(0x2bbe757f, 0xae752899, 0xda9bbb0d) == 0xfa35aa19
    ensures F(0x7d4bd80b, 0x2bbe757f, 0xae752899) == 0xab3e709b
    ensures F(0x56cfa5cb, 0x7d4bd80b, 0x2bbe757f) == 0x7d7bd03f
    ensures F(0x1754a316, 0x56cfa5cb, 0x7d4bd80b) == 0x7e4ff90b
    ensures F(0x85567d90, 0x1754a316, 0x56cfa5cb) == 0x57dda15b
    ensures F(0x00df74d5, 0x85567d90, 0x1754a316) == 0x1756f792
  {}

  lemma Steps8()
    requires State(8) == Regs(0xfe15f787, 0xda9bbb0d, 0xb71122fc, 0xa811b278)
    ensures State(12) == Regs(0xae752899, 0x56cfa5cb, 0x7d4bd80b, 0x2bbe757f)
  {
    hide Power, RotateLeft, State, F, G, H, I;
    TurnsOne();
    MixesTwo();
    var r := State(8);
    r := StepIs(8, r, 0xb211227c, 0x19a7b2db, 0xd3d96d8c, 0xae752899);
    r := StepIs(9, r, 0x9b112a6d, 0xce67d494, 0x7d494ce6, 0x2bbe757f);
    r := StepIs(10, r, 0xfa35aa19, 0xb14628c6, 0x518d628c, 0x7d4bd80b);
    r := StepIs(11, r, 0xab3e709b, 0x0f370366, 0xd983cdc0, 0x56cfa5cb);
  }

  lemma Steps12()
    requires State(12) == Regs(0xae752899, 0x56cfa5cb, 0x7d4bd80b, 0x2bbe757f)
    ensures State(16) == Regs(0x1754a316, 0x608d6b7e, 0x00df74d5, 0x85567d90)
  {
    hide Power, RotateLeft, State, F, G, H, I;
    TurnsOne();
    MixesTwo();
    var r := State(12);
    r := StepIs(12, r, 0x7d7bd03f, 0x978109fa, 0xc084fd4b, 0x1754a316);
    r := StepIs(13, r, 0x7e4ff90b, 0xa7a6e01d, 0x6e01da7a, 0x85567d90);
    r := StepIs(14, r, 0x57dda15b, 0x7ba2bdc4, 0x7b88f745, 0x00df74d5);
    r := StepIs(15, r, 0x1756f792, 0xb7daa57e, 0x5fadf6a9, 0x608d6b7e);
  }


  lemma TurnsTwo()
    ensures RotateLeft(0x76679832, 5) == 0xccf3064e
    ensures RotateLeft(0xa6982737, 9) == 0x304e6f4d
    ensures RotateLeft(0x74ca40be, 14) == 0x902f9d32
    ensures RotateLeft(0x2c7685e2, 20) == 0x5e22c768
    ensures RotateLeft(0x685757f1, 5) == 0x0aeafe2d
    ensures RotateLeft(0xa520395c, 9) == 0x4072b94a
    ensures RotateLeft(0xddccac2e, 14) == 0x2b0bb773
    ensures RotateLeft(0x6ae37076, 20) == 0x0766ae37
    ensures RotateLeft(0x3ade725b, 5) == 0x5bce4b67
    ensures RotateLeft(0x64b1ec29, 9) == 0x63d852c9
    ensures RotateLeft(0xd56dbcc0, 14) == 0x6f30355b
    ensures RotateLeft(0xb7d39ee0, 20) == 0xee0b7d39
    ensures RotateLeft(0xc073ce9b, 5) == 0x0e79d378
    ensures RotateLeft(0xe94e96f5, 9) == 0x9d2debd2
    ensures RotateLeft(0xf3966fb8, 14) == 0x9bee3ce5
    ensures RotateLeft(0x9a79f804, 20) == 0x8049a79f
  {
    hide Power;
    PowersAre();
  }

  lemma MixesThree()
    ensures G(0x608d6b7e, 0x00df74d5, 0x85567d90) == 0x008d6955
    ensures G(0x2d8071cc, 0x608d6b7e, 0x00df74d5) == 0x60807bee
    ensures G(0x5dcee119, 0x2d8071cc, 0x608d6b7e) == 0x4d8c7198
    ensures G(0xedfe7e4b, 0x5dcee119, 0x2d8071cc) == 0x7dcef059
    ensures G(0x4c2145b3, 0xedfe7e4b, 0x5dcee119) == 0xec305f53
    ensures G(0x570c43e0, 0x4c2145b3, 0xedfe7e4b) == 0x450d43f0
    ensures G(0x977efd2a, 0x570c43e0, 0x4c2145b3) == 0x172c4762
    ensures G(0xc28ab49d, 0x977efd2a, 0x570c43e0) == 0xc27abc8a
  {}

  lemma Steps16()
    requires State(16) == Regs(0x1754a316, 0x608d6b7e, 0x00df74d5, 0x85567d90)
    ensures State(20) == Regs(0x2d8071cc, 0x4c2145b3, 0xedfe7e4b, 0x5dcee119)
  {
    hide Power, RotateLeft, State, F, G, H, I;
    TurnsTwo();
    MixesThree();
    var r := State(16);
    r := StepIs(16, r, 0x008d6955, 0x76679832, 0xccf3064e, 0x2d8071cc);
    r := StepIs(17, r, 0x60807bee, 0xa6982737, 0x304e6f4d, 0x5dcee119);
    r := StepIs(18, r, 0x4d8c7198, 0x74ca40be, 0x902f9d32, 0xedfe7e4b);
    r := StepIs(19, r, 0x7dcef059, 0x2c7685e2, 0x5e22c768, 0x4c2145b3);
  }

  lemma Steps20()
    requires State(20) == Regs(0x2d8071cc, 0x4c2145b3, 0xedfe7e4b, 0x5dcee119)
    ensures State(24) == Regs(0x570c43e0, 0xc9f162d4, 0xc28ab49d, 0x977efd2a)
  {
    hide Power, RotateLeft, State, F, G, H, I;
    TurnsTwo();
    MixesThree();
    var r := State(20);
    r := StepIs(20, r, 0xec305f53, 0x685757f1, 0x0aeafe2d, 0x570c43e0);
    r := StepIs(21, r, 0x450d43f0, 0xa520395c, 0x4072b94a, 0x977efd2a);
    r := StepIs(22, r, 0x172c4762, 0xddccac2e, 0x2b0bb773, 0xc28ab49d);
    r := StepIs(23, r, 0xc27abc8a, 0x6ae37076, 0x0766ae37, 0xc9f162d4);
  }


  lemma MixesFour()
    ensures G(0xc9f162d4, 0xc28ab49d, 0x977efd2a) == 0xc1f06095
    ensures G(0x25bfae3b, 0xc9f162d4, 0xc28ab49d) == 0x09fbe659
    ensures G(0x89980104, 0x25bfae3b, 0xc9f162d4) == 0xad9e8c2f
    ensures G(0xf8c8365f, 0x89980104, 0x25bfae3b) == 0xa888271f
    ensures G(0xe6d3b398, 0xf8c8365f, 0x89980104) == 0xf0d0375b
    ensures G(0xf54d8710, 0xe6d3b398, 0xf8c8365f) == 0xf65b8790
    ensures G(0x927b72e2, 0xf54d8710, 0xe6d3b398) == 0x935f3680
    ensures G(0x2e69afc7, 0x927b72e2, 0xf54d8710) == 0x267bf7e2
  {}

  lemma Steps24()
    requires State(24) == Regs(0x570c43e0, 0xc9f162d4, 0xc28ab49d, 0x977efd2a)
    ensures State(28) == Regs(0x25bfae3b, 0xe6d3b398, 0xf8c8365f, 0x89980104)
  {
    hide Power, RotateLeft, State, F, G, H, I;
    TurnsTwo();
    MixesFour();
    var r := State(24);
    r := StepIs(24, r, 0xc1f06095, 0x3ade725b, 0x5bce4b67, 0x25bfae3b);
    r := StepIs(25, r, 0x09fbe659, 0x64b1ec29, 0x63d852c9, 0x89980104);
    r := StepIs(26, r, 0xad9e8c2f, 0xd56dbcc0, 0x6f30355b, 0xf8c8365f);
    r := StepIs(27, r, 0xa888271f, 0xb7d39ee0, 0xee0b7d39, 0xe6d3b398);
  }

  lemma Steps28()
    requires State(28) == Regs(0x25bfae3b, 0xe6d3b398, 0xf8c8365f, 0x89980104)
    ensures State(32) == Regs(0xf54d8710, 0xaeb35766, 0x2e69afc7, 0x927b72e2)
  {
    hide Power, RotateLeft, State, F, G, H, I;
    TurnsTwo();
    MixesFour();
    var r := State(28);
    r := StepIs(28, r, 0xf0d0375b, 0xc073ce9b, 0x0e79d378, 0xf54d8710);
    r := StepIs(29, r, 0xf65b8790, 0xe94e96f5, 0x9d2debd2, 0x927b72e2);
    r := StepIs(30, r, 0x935f3680, 0xf3966fb8, 0x9bee3ce5, 0x2e69afc7);
    r := StepIs(31, r, 0x267bf7e2, 0x9a79f804, 0x8049a79f, 0xaeb35766);
  }


  lemma TurnsThree()
    ensures RotateLeft(0x8060c10a, 4) == 0x060c10a8
    ensures RotateLeft(0x4e52fa12, 11) == 0x97d09272
    ensures RotateLeft(0xf28ad6d1, 16) == 0xd6d1f28a
    ensures RotateLeft(0x87ea0fc6, 23) == 0xe343f507
    ensures RotateLeft(0x2b31ae52, 4) == 0xb31ae522
    ensures RotateLeft(0xa8e704c2, 11) == 0x38261547
    ensures RotateLeft(0x68a131c2, 16) == 0x31c268a1
    ensures RotateLeft(0x30f4fcd3, 23) == 0x69987a7e
    ensures RotateLeft(0x416a6cf1, 4) == 0x16a6cf14
    ensures RotateLeft(0x4debdb04, 11) == 0x5ed8226f
    ensures RotateLeft(0x95716435, 16) == 0x64359571
    ensures RotateLeft(0x5a28d053, 23) == 0x29ad1468
    ensures RotateLeft(0x72530c4a, 4) == 0x2530c4a7
    ensures RotateLeft(0x2d1d4ee5, 11) == 0xea772968
    ensures RotateLeft(0x0bd4cff2, 16) == 0xcff20bd4
    ensures RotateLeft(0x275d1e03, 23) == 0x0193ae8f
  {
    hide Power;
    PowersAre();
  }

  lemma MixesFive()
    ensures H(0xaeb35766, 0x2e69afc7, 0x927b72e2) == 0x12a18a43
    ensures H(0xb4bf680e, 0xaeb35766, 0x2e69afc7) == 0x346590af
    ensures H(0x4c8ffa80, 0xb4bf680e, 0xaeb35766) == 0x5683c5e8
    ensures H(0x2361ed0a, 0x4c8ffa80, 0xb4bf680e) == 0xdb517f84
    ensures H(0x06a5e211, 0x2361ed0a, 0x4c8ffa80) == 0x694bf59b
    ensures H(0xb9c0c733, 0x06a5e211, 0x2361ed0a) == 0x9c04c828
    ensures H(0xf1e6dc7a, 0xb9c0c733, 0x06a5e211) == 0x4e83f958
    ensures H(0x23a9451b, 0xf1e6dc7a, 0xb9c0c733) == 0x6b8f5e52
  {}

  lemma Steps32()
    requires State(32) == Regs(0xf54d8710, 0xaeb35766, 0x2e69afc7, 0x927b72e2)
    ensures State(36) == Regs(0xb4bf680e, 0x06a5e211, 0x2361ed0a, 0x4c8ffa80)
  {
    hide Power, RotateLeft, State, F, G, H, I;
    TurnsThree();
    MixesFive();
    var r := State(32);
    r := StepIs(32, r, 0x12a18a43, 0x8060c10a, 0x060c10a8, 0xb4bf680e);
    r := StepIs(33, r, 0x346590af, 0x4e52fa12, 0x97d09272, 0x4c8ffa80);
    r := StepIs(34, r, 0x5683c5e8, 0xf28ad6d1, 0xd6d1f28a, 0x2361ed0a);
    r := StepIs(35, r, 0xdb517f84, 0x87ea0fc6, 0xe343f507, 0x06a5e211);
  }

  lemma Steps36()
    requires State(36) == Regs(0xb4bf680e, 0x06a5e211, 0x2361ed0a, 0x4c8ffa80)
    ensures State(40) == Regs(0xb9c0c733, 0x8d41bf99, 0x23a9451b, 0xf1e6dc7a)
  {
    hide Power, RotateLeft, State, F, G, H, I;
    TurnsThree();
    MixesFive();
    var r := State(36);
    r := StepIs(36, r, 0x694bf59b, 0x2b31ae52, 0xb31ae522, 0xb9c0c733);
    r := StepIs(37, r, 0x9c04c828, 0xa8e704c2, 0x38261547, 0xf1e6dc7a);
    r := StepIs(38, r, 0x4e83f958, 0x68a131c2, 0x31c268a1, 0x23a9451b);
    r := StepIs(39, r, 0x6b8f5e52, 0x30f4fcd3, 0x69987a7e, 0x8d41bf99);
  }


  lemma MixesSix()
    ensures H(0x8d41bf99, 0x23a9451b, 0xf1e6dc7a) == 0x5f0e26f8
    ensures H(0xa3e88ead, 0x8d41bf99, 0x23a9451b) == 0x0d00742f
    ensures H(0x02c0b11c, 0xa3e88ead, 0x8d41bf99) == 0x2c698028
    ensures H(0x66f6468d, 0x02c0b11c, 0xa3e88ead) == 0xc7de793c
    ensures H(0x90a35af5, 0x66f6468d, 0x02c0b11c) == 0xf495ad64
    ensures H(0xb5d41f9c, 0x90a35af5, 0x66f6468d) == 0x438103e4
    ensures H(0xa04b4904, 0xb5d41f9c, 0x90a35af5) == 0x853c0c6d
    ensures H(0x703d54d8, 0xa04b4904, 0xb5d41f9c) == 0x65a20240
  {}

  lemma Steps40()
    requires State(40) == Regs(0xb9c0c733, 0x8d41bf99, 0x23a9451b, 0xf1e6dc7a)
    ensures State(44) == Regs(0xa3e88ead, 0x90a35af5, 0x66f6468d, 0x02c0b11c)
  {
    hide Power, RotateLeft, State, F, G, H, I;
    TurnsThree();
    MixesSix();
    var r := State(40);
    r := StepIs(40, r, 0x5f0e26f8, 0x416a6cf1, 0x16a6cf14, 0xa3e88ead);
    r := StepIs(41, r, 0x0d00742f, 0x4debdb04, 0x5ed8226f, 0x02c0b11c);
    r := StepIs(42, r, 0x2c698028, 0x95716435, 0x64359571, 0x66f6468d);
    r := StepIs(43, r, 0xc7de793c, 0x5a28d053, 0x29ad1468, 0x90a35af5);
  }

  lemma Steps44()
    requires State(44) == Regs(0xa3e88ead, 0x90a35af5, 0x66f6468d, 0x02c0b11c)
    ensures State(48) == Regs(0xb5d41f9c, 0x71d10367, 0x703d54d8, 0xa04b4904)
  {
    hide Power, RotateLeft, State, F, G, H, I;
    TurnsThree();
    MixesSix();
    var r := State(44);
    r := StepIs(44, r, 0xf495ad64, 0x72530c4a, 0x2530c4a7, 0xb5d41f9c);
    r := StepIs(45, r, 0x438103e4, 0x2d1d4ee5, 0xea772968, 0xa04b4904);
    r := StepIs(46, r, 0x853c0c6d, 0x0bd4cff2, 0xcff20bd4, 0x703d54d8);
    r := StepIs(47, r, 0x65a20240, 0x275d1e03, 0x0193ae8f, 0x71d10367);
  }


  lemma TurnsFour()
    ensures RotateLeft(0x1e298768, 6) == 0x8a61da07
    ensures RotateLeft(0x719a44a3, 10) == 0x69128dc6
    ensures RotateLeft(0x2f2e9c21, 15) == 0x4e109797
    ensures RotateLeft(0xbd766404, 21) == 0x8097aecc
    ensures RotateLeft(0x6a37ee45, 6) == 0x8dfb915a
    ensures RotateLeft(0x62c5f495, 10) == 0x17d2558b
    ensures RotateLeft(0xcf9893d5, 15) == 0x49eae7cc
    ensures RotateLeft(0x07e69aff, 21) == 0x5fe0fcd3
    ensures RotateLeft(0xb5f3c113, 6) == 0x7cf044ed
    ensures RotateLeft(0x37e10200, 10) == 0x840800df
    ensures RotateLeft(0xc3303ec4, 15) == 0x1f626198
    ensures RotateLeft(0x4d258dd4, 21) == 0xba89a4b1
    ensures RotateLeft(0x48488c42, 6) == 0x12231092
    ensures RotateLeft(0x64aec80e, 10) == 0xbb203992
    ensures RotateLeft(0x16574fc0, 15) == 0xa7e00b2b
    ensures RotateLeft(0x3e42c9ec, 21) == 0x3d87c859
  {
    hide Power;
    PowersAre();
  }

  lemma MixesSeven()
    ensures I(0x71d10367, 0x703d54d8, 0xa04b4904) == 0x0fc8e327
    ensures I(0xfc32dd6e, 0x71d10367, 0x703d54d8) == 0x8e23fc08
    ensures I(0x65456b34, 0xfc32dd6e, 0x71d10367) == 0x135d22d2
    ensures I(0xb35602cb, 0x65456b34, 0xfc32dd6e) == 0xd69a49ef
    ensures I(0x33edb197, 0xb35602cb, 0x65456b34) == 0x08a9b714
    ensures I(0xc1e942f1, 0x33edb197, 0xb35602cb) == 0xfe044e62
    ensures I(0xd9bb987c, 0xc1e942f1, 0x33edb197) == 0x1c529c8d
    ensures I(0x23a68048, 0xd9bb987c, 0xc1e942f1) == 0xe60d2532
  {}

  lemma Steps48()
    requires State(48) == Regs(0xb5d41f9c, 0x71d10367, 0x703d54d8, 0xa04b4904)
    ensures State(52) == Regs(0xfc32dd6e, 0x33edb197, 0xb35602cb, 0x65456b34)
  {
    hide Power, RotateLeft, State, F, G, H, I;
    TurnsFour();
    MixesSeven();
    var r := State(48);
    r := StepIs(48, r, 0x0fc8e327, 0x1e298768, 0x8a61da07, 0xfc32dd6e);
    r := StepIs(49, r, 0x8e23fc08, 0x719a44a3, 0x69128dc6, 0x65456b34);
    r := StepIs(50, r, 0x135d22d2, 0x2f2e9c21, 0x4e109797, 0xb35602cb);
    r := StepIs(51, r, 0xd69a49ef, 0xbd766404, 0x8097aecc, 0x33edb197);
  }

  lemma Steps52()
    requires State(52) == Regs(0xfc32dd6e, 0x33edb197, 0xb35602cb, 0x65456b34)
    ensures State(56) == Regs(0xc1e942f1, 0x83877d1b, 0x23a68048, 0xd9bb987c)
  {
    hide Power, RotateLeft, State, F, G, H, I;
    TurnsFour();
    MixesSeven();
    var r := State(52);
    r := StepIs(52, r, 0x08a9b714, 0x6a37ee45, 0x8dfb915a, 0xc1e942f1);
    r := StepIs(53, r, 0xfe044e62, 0x62c5f495, 0x17d2558b, 0xd9bb987c);
    r := StepIs(54, r, 0x1c529c8d, 0xcf9893d5, 0x49eae7cc, 0x23a68048);
    r := StepIs(55, r, 0xe60d2532, 0x07e69aff, 0x5fe0fcd3, 0x83877d1b);
  }


  lemma MixesEight()
    ensures I(0x83877d1b, 0x23a68048, 0xd9bb987c) == 0x8461ffd3
    ensures I(0x0077c208, 0x83877d1b, 0x23a68048) == 0x5ff882a4
    ensures I(0x847fc2e7, 0x0077c208, 0x83877d1b) == 0xfc0800ef
    ensures I(0xa3e2247f, 0x847fc2e7, 0x0077c208) == 0x7b95ff18
    ensures I(0x5e6bc930, 0xa3e2247f, 0x847fc2e7) == 0xdc09d947
    ensures I(0x708ed9c2, 0x5e6bc930, 0xa3e2247f) == 0x22f412f2
    ensures I(0x2baf1354, 0x708ed9c2, 0x5e6bc930) == 0xdb31ee1d
    ensures I(0xd38f1e7f, 0x2baf1354, 0x708ed9c2) == 0xf4502d2b
  {}

  lemma Steps56()
    requires State(56) == Regs(0xc1e942f1, 0x83877d1b, 0x23a68048, 0xd9bb987c)
    ensures State(60) == Regs(0x0077c208, 0x5e6bc930, 0xa3e2247f, 0x847fc2e7)
  {
    hide Power, RotateLeft, State, F, G, H, I;
    TurnsFour();
    MixesEight();
    var r := State(56);
    r := StepIs(56, r, 0x8461ffd3, 0xb5f3c113, 0x7cf044ed, 0x0077c208);
    r := StepIs(57, r, 0x5ff882a4, 0x37e10200, 0x840800df, 0x847fc2e7);
    r := StepIs(58, r, 0xfc0800ef, 0xc3303ec4, 0x1f626198, 0xa3e2247f);
    r := StepIs(59, r, 0x7b95ff18, 0x4d258dd4, 0xba89a4b1, 0x5e6bc930);
  }

  lemma Steps60()
    requires State(60) == Regs(0x0077c208, 0x5e6bc930, 0xa3e2247f, 0x847fc2e7)
    ensures State(64) == Regs(0x708ed9c2, 0x1116e6d8, 0xd38f1e7f, 0x2baf1354)
  {
    hide Power, RotateLeft, State, F, G, H, I;
    TurnsFour();
    MixesEight();
    var r := State(60);
    r := StepIs(60, r, 0xdc09d947, 0x48488c42, 0x12231092, 0x708ed9c2);
    r := StepIs(61, r, 0x22f412f2, 0x64aec80e, 0xbb203992, 0x2baf1354);
    r := StepIs(62, r, 0xdb31ee1d, 0x16574fc0, 0xa7e00b2b, 0xd38f1e7f);
    r := StepIs(63, r, 0xf4502d2b, 0x3e42c9ec, 0x3d87c859, 0x1116e6d8);
  }

  lemma AllSteps()
    ensures State(64) == Regs(0x708ed9c2, 0x1116e6d8, 0xd38f1e7f, 0x2baf1354)
  {
    Start();
    hide State;
    Steps0(); Steps4(); Steps8(); Steps12();
    Steps16(); Steps20(); Steps24(); Steps28();
    Steps32(); Steps36(); Steps40(); Steps44();
    Steps48(); Steps52(); Steps56(); Steps60();
  }

  lemma Start()
    ensures State(0) == Regs(0x67452301, 0xefcdab89, 0x98badcfe, 0x10325476)
  {}

  lemma LengthOfAlphabet()
    ensures LengthBytes(26) == [208, 0, 0, 0, 0, 0, 0, 0]
  {
    var w: seq<Uint32> := [208, 0];
    assert w[..1] == [208] && w[..1][..0] == [];
    assert EncodeWords(w[..1]) == BytesOf(208);
    assert EncodeWords(w) == BytesOf(208) + BytesOf(0);
  }

  lemma PaddedAlphabet()
    ensures var p := Padded(ALPHABET);
            && |p| == 64 && p[..26] == ALPHABET && p[26] == 0x80 && p[56] == 208
            && forall k :: 27 <= k < 64 && k != 56 ==> p[k] == 0
  {
    LengthOfAlphabet();
    hide LengthBytes;
    assert PadBits(26) == [0x80] + Zeros(29);
  }

  lemma WordsOf(p: seq<Uint8>)
    requires |p| == 64 && p[26] == 0x80 && p[56] == 208
    requires (forall k :: 0 <= k < 26 ==> p[k] == 97 + k) && forall k :: 27 <= k < 64 && k != 56 ==> p[k] == 0
    ensures forall i :: 0 <= i < 6 ==> DecodeAt(p, i) == 0x64636261 + 0x4040404 * i
    ensures DecodeAt(p, 6) == 0x00807a79 && DecodeAt(p, 14) == 0x000000d0 && DecodeAt(p, 15) == 0
    ensures forall i :: 7 <= i < 14 ==> DecodeAt(p, i) == 0
  {
    forall i | 0 <= i < 6 ensures DecodeAt(p, i) == 0x64636261 + 0x4040404 * i {
      assert p[4 * i] == 97 + 4 * i && p[4 * i + 1] == 98 + 4 * i;
      assert p[4 * i + 2] == 99 + 4 * i && p[4 * i + 3] == 100 + 4 * i;
    }
    forall i | 7 <= i < 14 ensures DecodeAt(p, i) == 0 {
      assert p[4 * i] == 0 && p[4 * i + 1] == 0 && p[4 * i + 2] == 0 && p[4 * i + 3] == 0;
    }
  }

  lemma Words()
    ensures |Padded(ALPHABET)| == 64 && BlockWords(Padded(ALPHABET)) == WORDS
  {
    PaddedAlphabet();
    hide Padded, DecodeAt;
    var p := Padded(ALPHABET);
    assert forall k :: 0 <= k < 26 ==> p[k] == p[..26][k];
    WordsOf(p);
    var x := BlockWords(p);
    assert x == [x[0], x[1], x[2], x[3], x[4], x[5], x[6], x[7],
                 x[8], x[9], x[10], x[11], x[12], x[13], x[14], x[15]];
  }

  lemma CompressedAlphabet()
    ensures |Padded(ALPHABET)| == 64
    ensures Compress(INITIAL, Padded(ALPHABET)) == Regs(0xd7d3fcc3, 0x00e49261, 0x6c49fb7d, 0x3be167ca)
  {
    hide Rounds, Padded, BlockWords;
    Words();
    AllSteps();
  }

  // The last of the values that appendix A.5 gives for one block: c3fcd3d76192e4007dfb496cca67e13b.
  lemma DigestOfAlphabet()
    ensures Digest(ALPHABET) == [0xc3, 0xfc, 0xd3, 0xd7, 0x61, 0x92, 0xe4, 0x00,
                                 0x7d, 0xfb, 0x49, 0x6c, 0xca, 0x67, 0xe1, 0x3b]
  {
    hide Compress, Padded, EncodeWords;
    Words();
    CompressedAlphabet();
    var p := Padded(ALPHABET);
    assert p[..64] == p && p[64..] == [];
    assert Absorb(INITIAL, p) == Compress(INITIAL, p);
    EncodeFour(0xd7d3fcc3, 0x00e49261, 0x6c49fb7d, 0x3be167ca);
  }
}
