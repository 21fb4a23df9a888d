/** Known answers: the hash, a frame and a container, byte by byte, and printed numbers, identities and keys
    letter by letter (include/lab_scheduler/canonical.hpp:14, src/canonical.cpp:23-201, src/protocol.cpp:128-162,
    src/persistence.cpp:18-58, include/lab_scheduler/identity.hpp:20-84). */
module KnownAnswers {
  import opened Prelude
  import opened Bytes
  import opened Canonical
  import opened Codec
  import opened Cells
  import opened RecordCodec
  import opened Frames
  import opened Container

  // ---------------------------------------------------------------- the hash, byte by byte

  type Nibble = x: int | 0 <= x < 16

  lemma {:induction false} XorBit(h: nat, g: nat, x: nat, y: nat)
    requires x <= 1 && y <= 1
    ensures Xor(2 * h + x, 2 * g + y) == 2 * Xor(h, g) + (if x == y then 0 else 1)
  {
    hide Xor;
    XorDigits(2 * h + x, 2 * g + y);
    assert (2 * h + x) / 2 == h && (2 * g + y) / 2 == g && (2 * h + x) % 2 == x && (2 * g + y) % 2 == y;
  }

  function Bit8(a: Nibble): nat { if a >= 8 then 1 else 0 }
  function Bit4(a: Nibble): nat { if a - 8 * Bit8(a) >= 4 then 1 else 0 }
  function Bit2(a: Nibble): nat { if a - 8 * Bit8(a) - 4 * Bit4(a) >= 2 then 1 else 0 }
  function Bit1(a: Nibble): nat { a - 8 * Bit8(a) - 4 * Bit4(a) - 2 * Bit2(a) }

  function Half(a: int, bit: nat): nat { if a >= bit then bit else 0 }

  function Mixed(a: Nibble, b: Nibble): nat {
    var a8, b8 := Half(a, 8), Half(b, 8);
    var a4, b4 := Half(a - a8, 4), Half(b - b8, 4);
    var a2, b2 := Half(a - a8 - a4, 2), Half(b - b8 - b4, 2);
    (if a8 == b8 then 0 else 8) + (if a4 == b4 then 0 else 4) + (if a2 == b2 then 0 else 2)
    + (if a - a8 - a4 - a2 == b - b8 - b4 - b2 then 0 else 1)
  }

  lemma MixedBits(a: Nibble, b: Nibble)
    ensures Mixed(a, b) == (if Bit8(a) == Bit8(b) then 0 else 8) + (if Bit4(a) == Bit4(b) then 0 else 4)
    + (if Bit2(a) == Bit2(b) then 0 else 2) + (if Bit1(a) == Bit1(b) then 0 else 1)
  {
  }

  lemma BitsExact(a: Nibble)
    ensures a == 8 * Bit8(a) + 4 * Bit4(a) + 2 * Bit2(a) + Bit1(a)
    ensures Bit8(a) <= 1 && Bit4(a) <= 1 && Bit2(a) <= 1 && Bit1(a) <= 1
  {
  }

  lemma XorNibble(h: nat, g: nat, a: Nibble, b: Nibble)
    ensures Xor(16 * h + a, 16 * g + b) == 16 * Xor(h, g) + Mixed(a, b)
  {
    hide Xor, Bit8, Bit4, Bit2, Bit1, Mixed;
    MixedBits(a, b);
    BitsExact(a);
    BitsExact(b);
    XorBit(h, g, Bit8(a), Bit8(b));
    XorBit(2 * h + Bit8(a), 2 * g + Bit8(b), Bit4(a), Bit4(b));
    XorBit(4 * h + 2 * Bit8(a) + Bit4(a), 4 * g + 2 * Bit8(b) + Bit4(b), Bit2(a), Bit2(b));
    XorBit(8 * h + 4 * Bit8(a) + 2 * Bit4(a) + Bit2(a), 8 * g + 4 * Bit8(b) + 2 * Bit4(b) + Bit2(b), Bit1(a), Bit1(b));
  }

  /** One byte is folded in: exclusive or with the low byte, nibble by nibble, then the product with the prime
      modulo 2^64. */
  lemma StepIs(h: U64, b: Byte, high: nat, a1: Nibble, a0: Nibble, b1: Nibble, b0: Nibble, q: nat, r: U64)
    requires h == 256 * high + 16 * a1 + a0 && b == 16 * b1 + b0
    requires (256 * high + 16 * Mixed(a1, b1) + Mixed(a0, b0)) * 0x100000001b3 == q * 0x1_0000_0000_0000_0000 + r
    ensures FnvStep(h, b) == r
  {
    hide Xor, Mixed;
    XorNibble(16 * high + a1, b1, a0, b0);
    XorNibble(high, 0, a1, b1);
    XorZero(high);
    RemainderUnique((256 * high + 16 * Mixed(a1, b1) + Mixed(a0, b0)) * 0x100000001b3, 0x1_0000_0000_0000_0000, q, r);
  }

  lemma OneHashed(h: U64, b: Byte)
    ensures FnvContinue(h, [b]) == FnvStep(h, b)
  {
    assert [b][..0] == [];
  }

  lemma FourHashed(h: U64, a: Byte, b: Byte, c: Byte, d: Byte)
    ensures FnvContinue(h, [a, b, c, d]) == FnvStep(FnvStep(FnvStep(FnvStep(h, a), b), c), d)
  {
    hide FnvStep;
    OneHashed(h, a);
    assert [a, b][..1] == [a] && [a, b, c][..2] == [a, b] && [a, b, c, d][..3] == [a, b, c];
    assert FnvContinue(h, [a, b]) == FnvStep(FnvStep(h, a), b);
    assert FnvContinue(h, [a, b, c]) == FnvStep(FnvStep(FnvStep(h, a), b), c);
  }

  lemma TwoHashed(h: U64, a: Byte, b: Byte)
    ensures FnvContinue(h, [a, b]) == FnvStep(FnvStep(h, a), b)
  {
    hide FnvStep;
    OneHashed(h, a);
    assert [a, b][..1] == [a];
  }

  /** The empty text hashes to the offset basis. */
  lemma EmptyHash()
    ensures Fnv([]) == 0xcbf29ce484222325
  {
  }

  /** The hash of "a". */
  lemma LetterHash()
    ensures Fnv([0x61]) == 0xaf63dc4c8601ec8c
  {
    hide FnvStep;
    OneHashed(0xcbf29ce484222325, 0x61);
    StepIs(0xcbf29ce484222325, 0x61, 0xcbf29ce4842223, 2, 5, 6, 1, 0xcbf29ce5de,
           0xaf63dc4c8601ec8c);
  }

  lemma FoobHashed()
    ensures FnvContinue(0xcbf29ce484222325, [0x66, 0x6f, 0x6f, 0x62]) == 0xdd120e790c2512af
  {
    hide FnvContinue, FnvStep;
    FourHashed(0xcbf29ce484222325, 0x66, 0x6f, 0x6f, 0x62);
    StepIs(0xcbf29ce484222325, 0x66, 0xcbf29ce4842223, 2, 5, 6, 6, 0xcbf29ce5de,
           0xaf63db4c8601ead9);
    StepIs(0xaf63db4c8601ead9, 0x6f, 0xaf63db4c8601ea, 13, 9, 6, 15, 0xaf63db4db0,
           0x8985907b541d342);
    StepIs(0x8985907b541d342, 0x6f, 0x8985907b541d3, 4, 2, 6, 15, 0x8985907c3,
           0xdcb27518fed9d577);
    StepIs(0xdcb27518fed9d577, 0x62, 0xdcb27518fed9d5, 7, 7, 6, 2, 0xdcb2751a75,
           0xdd120e790c2512af);
  }

  /** The hash of "foobar". */
  lemma WordHash()
    ensures Fnv([0x66, 0x6f, 0x6f, 0x62, 0x61, 0x72]) == 0x85944171f73967e8
  {
    hide FnvContinue, FnvStep;
    FoobHashed();
    FnvJoin(0xcbf29ce484222325, [0x66, 0x6f, 0x6f, 0x62], [0x61, 0x72]);
    assert [0x66, 0x6f, 0x6f, 0x62] + [0x61, 0x72] == [0x66, 0x6f, 0x6f, 0x62, 0x61, 0x72];
    TwoHashed(0xdd120e790c2512af, 0x61, 0x72);
    StepIs(0xdd120e790c2512af, 0x61, 0xdd120e790c2512, 10, 15, 6, 1, 0xdd120e7a83,
           0xcac165afa2fef40a);
    StepIs(0xcac165afa2fef40a, 0x72, 0xcac165afa2fef4, 0, 10, 7, 2, 0xcac165b0fb,
           0x85944171f73967e8);
  }

  // ---------------------------------------------------------------- a frame

  const SAMPLE_VIEW := View(7, 0x0102030405060708, 0x1112131415161718, [0x6c, 0x61, 0x62, 0x21])

  lemma VersionHashed()
    ensures FnvContinue(0xcbf29ce484222325, [0x1, 0x0, 0x0, 0x0]) == 0xad2aca7747985764
  {
    hide FnvContinue, FnvStep;
    FourHashed(0xcbf29ce484222325, 0x1, 0x0, 0x0, 0x0);
    StepIs(0xcbf29ce484222325, 0x1, 0xcbf29ce4842223, 2, 5, 0, 1, 0xcbf29ce5de,
           0xaf63bc4c8601b62c);
    StepIs(0xaf63bc4c8601b62c, 0x0, 0xaf63bc4c8601b6, 2, 12, 0, 0, 0xaf63bc4db0,
           0x82f2207b4e88cc4);
    StepIs(0x82f2207b4e88cc4, 0x0, 0x82f2207b4e88c, 12, 4, 0, 0, 0x82f2207c2,
           0xd0a397186727310c);
    StepIs(0xd0a397186727310c, 0x0, 0xd0a39718672731, 0, 12, 0, 0, 0xd0a39719c9,
           0xad2aca7747985764);
  }

  lemma KindHashed()
    ensures FnvContinue(0xad2aca7747985764, [0x7, 0x0]) == 0xfb4b32c73ba8c7db
  {
    hide FnvContinue, FnvStep;
    TwoHashed(0xad2aca7747985764, 0x7, 0x0);
    StepIs(0xad2aca7747985764, 0x7, 0xad2aca77479857, 6, 4, 0, 7, 0xad2aca786d,
           0xd80d6baea7dc7d39);
    StepIs(0xd80d6baea7dc7d39, 0x0, 0xd80d6baea7dc7d, 3, 9, 0, 0, 0xd80d6bb016,
           0xfb4b32c73ba8c7db);
  }

  lemma SpareHashed()
    ensures FnvContinue(0xfb4b32c73ba8c7db, [0x0, 0x0]) == 0xe9d28520c6f53313
  {
    hide FnvContinue, FnvStep;
    TwoHashed(0xfb4b32c73ba8c7db, 0x0, 0x0);
    StepIs(0xfb4b32c73ba8c7db, 0x0, 0xfb4b32c73ba8c7, 13, 11, 0, 0, 0xfb4b32c8e6,
           0xa98f238a5fcb9921);
    StepIs(0xa98f238a5fcb9921, 0x0, 0xa98f238a5fcb99, 2, 1, 0, 0, 0xa98f238b7f,
           0xe9d28520c6f53313);
  }

  lemma CorrelationHashed()
    ensures FnvContinue(0xe9d28520c6f53313, [0x8, 0x7, 0x6, 0x5]) == 0x6b54f673818e80db
  {
    hide FnvContinue, FnvStep;
    FourHashed(0xe9d28520c6f53313, 0x8, 0x7, 0x6, 0x5);
    StepIs(0xe9d28520c6f53313, 0x8, 0xe9d28520c6f533, 1, 3, 0, 8, 0xe9d2852254,
           0x45eb51b212a5d6e1);
    StepIs(0x45eb51b212a5d6e1, 0x7, 0x45eb51b212a5d6, 14, 1, 0, 7, 0x45eb51b289,
           0x74b2b795afcc28d2);
    StepIs(0x74b2b795afcc28d2, 0x6, 0x74b2b795afcc28, 13, 2, 0, 6, 0x74b2b79676,
           0x17d6c759b7e9603c);
    StepIs(0x17d6c759b7e9603c, 0x5, 0x17d6c759b7e960, 3, 12, 0, 5, 0x17d6c759e0,
           0x6b54f673818e80db);
  }

  lemma CorrelationEndHashed()
    ensures FnvContinue(0x6b54f673818e80db, [0x4, 0x3, 0x2, 0x1]) == 0x31fea754a567fc5b
  {
    hide FnvContinue, FnvStep;
    FourHashed(0x6b54f673818e80db, 0x4, 0x3, 0x2, 0x1);
    StepIs(0x6b54f673818e80db, 0x4, 0x6b54f673818e80, 13, 11, 0, 4, 0x6b54f67437,
           0xefdfa5452524faed);
    StepIs(0xefdfa5452524faed, 0x3, 0xefdfa5452524fa, 14, 13, 0, 3, 0xefdfa546bc,
           0xbe00c27e1dd6626a);
    StepIs(0xbe00c27e1dd6626a, 0x2, 0xbe00c27e1dd662, 6, 10, 0, 2, 0xbe00c27f60,
           0xb1ace44cb34936b8);
    StepIs(0xb1ace44cb34936b8, 0x1, 0xb1ace44cb34936, 11, 8, 0, 1, 0xb1ace44de1,
           0x31fea754a567fc5b);
  }

  lemma EpochHashed()
    ensures FnvContinue(0x31fea754a567fc5b, [0x18, 0x17, 0x16, 0x15]) == 0x855d3c79341fd33
  {
    hide FnvContinue, FnvStep;
    FourHashed(0x31fea754a567fc5b, 0x18, 0x17, 0x16, 0x15);
    StepIs(0x31fea754a567fc5b, 0x18, 0x31fea754a567fc, 5, 11, 1, 8, 0x31fea754fa,
           0x5bb297d50fb1a5d9);
    StepIs(0x5bb297d50fb1a5d9, 0x17, 0x5bb297d50fb1a5, 13, 9, 1, 7, 0x5bb297d5ab,
           0x821dcd09aadcbd0a);
    StepIs(0x821dcd09aadcbd0a, 0x16, 0x821dcd09aadcbd, 0, 10, 1, 6, 0x821dcd0a87,
           0xf560836d55155694);
    StepIs(0xf560836d55155694, 0x15, 0xf560836d551556, 9, 4, 1, 5, 0xf560836ef6,
           0x855d3c79341fd33);
  }

  lemma EpochEndHashed()
    ensures FnvContinue(0x855d3c79341fd33, [0x14, 0x13, 0x12, 0x11]) == 0x9899f91bb4ec4333
  {
    hide FnvContinue, FnvStep;
    FourHashed(0x855d3c79341fd33, 0x14, 0x13, 0x12, 0x11);
    StepIs(0x855d3c79341fd33, 0x14, 0x855d3c79341fd, 3, 3, 1, 4, 0x855d3c7a1,
           0x6bd4031f39212945);
    StepIs(0x6bd4031f39212945, 0x13, 0x6bd4031f392129, 4, 5, 1, 3, 0x6bd4031ff0,
           0x5a6aa40e13593d22);
    StepIs(0x5a6aa40e13593d22, 0x12, 0x5a6aa40e13593d, 2, 2, 1, 2, 0x5a6aa40eac,
           0xfc71f3eae0a2f890);
    StepIs(0xfc71f3eae0a2f890, 0x11, 0xfc71f3eae0a2f8, 9, 0, 1, 1, 0xfc71f3ec8d,
           0x9899f91bb4ec4333);
  }

  lemma LengthHashed()
    ensures FnvContinue(0x9899f91bb4ec4333, [0x4, 0x0, 0x0, 0x0]) == 0x94eb52c55f917627
  {
    hide FnvContinue, FnvStep;
    FourHashed(0x9899f91bb4ec4333, 0x4, 0x0, 0x0, 0x0);
    StepIs(0x9899f91bb4ec4333, 0x4, 0x9899f91bb4ec43, 3, 3, 0, 4, 0x9899f91cb8,
           0x39e581146d763675);
    StepIs(0x39e581146d763675, 0x0, 0x39e581146d7636, 7, 5, 0, 0, 0x39e58114cf,
           0xd730cab5ffde88cf);
    StepIs(0xd730cab5ffde88cf, 0x0, 0xd730cab5ffde88, 12, 15, 0, 0, 0xd730cab76d,
           0x86714241c72277bd);
    StepIs(0x86714241c72277bd, 0x0, 0x86714241c72277, 11, 13, 0, 0, 0x86714242ab,
           0x94eb52c55f917627);
  }

  lemma PayloadHashed()
    ensures FnvContinue(0x94eb52c55f917627, [0x6c, 0x61, 0x62, 0x21]) == 0x258aa32ac844f935
  {
    hide FnvContinue, FnvStep;
    FourHashed(0x94eb52c55f917627, 0x6c, 0x61, 0x62, 0x21);
    StepIs(0x94eb52c55f917627, 0x6c, 0x94eb52c55f9176, 2, 7, 6, 12, 0x94eb52c65c,
           0x9d53f061642c0171);
    StepIs(0x9d53f061642c0171, 0x61, 0x9d53f061642c01, 7, 1, 6, 1, 0x9d53f0626f,
           0x81a2857d36c5ce30);
    StepIs(0x81a2857d36c5ce30, 0x62, 0x81a2857d36c5ce, 3, 0, 6, 2, 0x81a2857e13,
           0xcf725c4121d9556);
    StepIs(0xcf725c4121d9556, 0x21, 0xcf725c4121d95, 5, 6, 2, 1, 0xcf725c428,
           0x258aa32ac844f935);
  }

  lemma SamplePrefix()
    ensures Prefix(SAMPLE_VIEW)
         == [0x1, 0x0, 0x0, 0x0] + [0x7, 0x0] + [0x0, 0x0] + ([0x8, 0x7, 0x6, 0x5] + [0x4, 0x3, 0x2, 0x1])
            + ([0x18, 0x17, 0x16, 0x15] + [0x14, 0x13, 0x12, 0x11]) + [0x4, 0x0, 0x0, 0x0]
  {
    hide Little;
    FourLittle(1, 0, 0, 0);
    TwoLittle(7, 0);
    TwoLittle(0, 0);
    EightLittle(0x05060708, 0x01020304);
    FourLittle(8, 7, 6, 5);
    FourLittle(4, 3, 2, 1);
    EightLittle(0x15161718, 0x11121314);
    FourLittle(0x18, 0x17, 0x16, 0x15);
    FourLittle(0x14, 0x13, 0x12, 0x11);
    FourLittle(4, 0, 0, 0);
  }

  /** Header and payload hash to this value, whose low half is the checksum. */
  lemma SampleChecksum()
    ensures Checksum(SAMPLE_VIEW) == 0xc844f935
  {
    hide FnvContinue, Prefix;
    SamplePrefix();
    var h := 0xcbf29ce484222325;
    var v, k, r := [0x1, 0x0, 0x0, 0x0], [0x7, 0x0], [0x0, 0x0];
    var c, e := [0x8, 0x7, 0x6, 0x5] + [0x4, 0x3, 0x2, 0x1], [0x18, 0x17, 0x16, 0x15] + [0x14, 0x13, 0x12, 0x11];
    var n := [0x4, 0x0, 0x0, 0x0];
    FnvJoin(h, v, k);
    FnvJoin(h, v + k, r);
    FnvJoin(h, v + k + r, c);
    FnvJoin(h, v + k + r + c, e);
    FnvJoin(h, v + k + r + c + e, n);
    FnvJoin(0xe9d28520c6f53313, [0x8, 0x7, 0x6, 0x5], [0x4, 0x3, 0x2, 0x1]);
    FnvJoin(0x31fea754a567fc5b, [0x18, 0x17, 0x16, 0x15], [0x14, 0x13, 0x12, 0x11]);
    VersionHashed();
    KindHashed();
    SpareHashed();
    CorrelationHashed();
    CorrelationEndHashed();
    EpochHashed();
    EpochEndHashed();
    LengthHashed();
    PayloadHashed();
  }

  /** A frame of type 7 with four bytes of payload: length, version, type, spare, correlation, epoch, payload
      length, checksum, payload. */
  lemma FrameAnswer()
    ensures EncodeFrame(SAMPLE_VIEW)
         == Some([0x24, 0x0, 0x0, 0x0]
                 + ([0x1, 0x0, 0x0, 0x0] + [0x7, 0x0] + [0x0, 0x0] + ([0x8, 0x7, 0x6, 0x5] + [0x4, 0x3, 0x2, 0x1])
                    + ([0x18, 0x17, 0x16, 0x15] + [0x14, 0x13, 0x12, 0x11]) + [0x4, 0x0, 0x0, 0x0])
                 + [0x35, 0xf9, 0x44, 0xc8] + [0x6c, 0x61, 0x62, 0x21])
  {
    hide Little, Prefix, Checksum;
    SamplePrefix();
    SampleChecksum();
    FourLittle(0x24, 0, 0, 0);
    FourLittle(0x35, 0xf9, 0x44, 0xc8);
  }

  // ---------------------------------------------------------------- runs of zeros

  /** The prime to the power `n`, modulo 2^64. */
  function PrimePower(n: nat): U64 {
    if n == 0 then 1 else Wrap64(PrimePower(n - 1) * 0x100000001b3)
  }

  function Zeros(n: nat): seq<Byte> { seq(n, _ => 0) }

  lemma WrapsTimes(x: nat, y: nat)
    ensures Wrap64(Wrap64(x) * y) == Wrap64(x * y)
  {
    var q, r := x / 0x1_0000_0000_0000_0000, x % 0x1_0000_0000_0000_0000;
    var k, m := r * y / 0x1_0000_0000_0000_0000, r * y % 0x1_0000_0000_0000_0000;
    assert x * y == 0x1_0000_0000_0000_0000 * (q * y) + r * y;
    assert x * y == 0x1_0000_0000_0000_0000 * (q * y + k) + m;
    RemainderUnique(x * y, 0x1_0000_0000_0000_0000, q * y + k, m);
  }

  lemma WrapChain(a: nat, b: nat, c: nat)
    ensures Wrap64(Wrap64(a * b) * c) == Wrap64(a * Wrap64(b * c))
  {
    hide Wrap64;
    WrapsTimes(a * b, c);
    WrapsTimes(b * c, a);
    MulRegroup(a, b, c);
    Commutes(a, b * c);
    Commutes(a, Wrap64(b * c));
  }

  lemma Commutes(a: nat, b: nat)
    ensures a * b == b * a
  {
  }

  lemma {:induction false} PowerAdds(j: nat, k: nat)
    ensures PrimePower(j + k) == Wrap64(PrimePower(j) * PrimePower(k))
  {
    hide Wrap64;
    if k == 0 {
      assert PrimePower(j) * 1 == PrimePower(j);
      WrapsSmall(PrimePower(j));
    } else {
      PowerAdds(j, k - 1);
      WrapChain(PrimePower(j), PrimePower(k - 1), 0x100000001b3);
    }
  }

  lemma WrapsSmall(x: U64)
    ensures Wrap64(x) == x
  {
  }

  lemma PowerIs(j: nat, k: nat, a: U64, b: U64, q: nat, r: U64)
    requires PrimePower(j) == a && PrimePower(k) == b && a * b == q * 0x1_0000_0000_0000_0000 + r
    ensures PrimePower(j + k) == r
  {
    hide PrimePower;
    PowerAdds(j, k);
    RemainderUnique(a * b, 0x1_0000_0000_0000_0000, q, r);
  }

  /** Zeros only multiply. */
  lemma {:induction false} ZerosHashed(h: U64, n: nat)
    ensures FnvContinue(h, Zeros(n)) == Wrap64(h * PrimePower(n))
  {
    hide Wrap64;
    if n == 0 {
      assert h * 1 == h;
      WrapsSmall(h);
    } else {
      ZerosHashed(h, n - 1);
      assert Zeros(n)[..n - 1] == Zeros(n - 1);
      XorZero(FnvContinue(h, Zeros(n - 1)));
      WrapChain(h, PrimePower(n - 1), 0x100000001b3);
    }
  }

  lemma ZerosHashTo(h: U64, n: nat, p: U64, q: nat, r: U64)
    requires PrimePower(n) == p && h * p == q * 0x1_0000_0000_0000_0000 + r
    ensures FnvContinue(h, Zeros(n)) == r
  {
    hide FnvContinue, PrimePower;
    ZerosHashed(h, n);
    RemainderUnique(h * p, 0x1_0000_0000_0000_0000, q, r);
  }

  lemma PowersOfPrime()
    ensures PrimePower(4) == 0x9ffaac085635bc91 && PrimePower(48) == 0x48f9aa9b542778c1
            && PrimePower(148) == 0x30b613c5868b9ad1
  {
    hide PrimePower;
    FirstPower();
    PowerIs(1, 1, 0x100000001b3, 0x100000001b3, 0x10000, 0x366000002e329);
    PowerIs(2, 2, 0x366000002e329, 0x366000002e329, 0xb8ca40013, 0x9ffaac085635bc91);
    PowerIs(4, 4, 0x9ffaac085635bc91, 0x9ffaac085635bc91, 0x63f95726cefa554e, 0x1efac7090aef4a21);
    PowerIs(8, 8, 0x1efac7090aef4a21, 0x1efac7090aef4a21, 0x3bfbc4f76f8800e, 0x4efe15c813151841);
    PowerIs(16, 16, 0x4efe15c813151841, 0x4efe15c813151841, 0x185fd17526812823, 0x558b2e6a2f64081);
    PowerIs(32, 32, 0x558b2e6a2f64081, 0x558b2e6a2f64081, 0x1c95b87df33239, 0xe9be24f4c2cc101);
    PowerIs(64, 64, 0xe9be24f4c2cc101, 0xe9be24f4c2cc101, 0xd56bac806b3e5c, 0xf2457d0981da8201);
    PowerIs(32, 16, 0x558b2e6a2f64081, 0x4efe15c813151841, 0x1a654f83adb6d98, 0x48f9aa9b542778c1);
    PowerIs(128, 16, 0xf2457d0981da8201, 0x4efe15c813151841, 0x4ac1a1a8009a006c, 0xa82627f131c01a41);
    PowerIs(144, 4, 0xa82627f131c01a41, 0x9ffaac085635bc91, 0x69145910ec18500b, 0x30b613c5868b9ad1);
  }

  lemma FirstPower()
    ensures PrimePower(1) == 0x100000001b3
  {
  }

  /** A column of numbers that are all zero. */
  lemma {:induction false} ZeroColumns(fs: seq<Format>, widths: seq<nat>, n: nat)
    requires |fs| == |widths| && n == Total(widths)
    requires forall i :: 0 <= i < |fs| ==> fs[i].Word? || fs[i].Weight? || fs[i].Long?
    requires forall i :: 0 <= i < |fs| ==> widths[i] == if fs[i].Long? then 8 else 4
    ensures Encode(Fields(fs), Row(seq(|fs|, _ => Num(0)))) == Zeros(n)
  {
    hide Little;
    if fs != [] {
      ZeroColumns(fs[1..], widths[1..], Total(widths[1..]));
      assert seq(|fs|, _ => Num(0))[1..] == seq(|fs[1..]|, _ => Num(0));
      ZeroLittle(widths[0]);
      assert Zeros(n) == Zeros(widths[0]) + Zeros(n - widths[0]);
    }
  }

  function Total(widths: seq<nat>): nat {
    if widths == [] then 0 else widths[0] + Total(widths[1..])
  }

  lemma {:induction false} ZeroLittle(n: nat)
    ensures Little(0, n) == Zeros(n)
  {
    if n > 0 {
      ZeroLittle(n - 1);
      assert Zeros(n) == [0] + Zeros(n - 1);
    }
  }

  // ---------------------------------------------------------------- a container

  /** An image in epoch 2 with counter 3, all limits and weights zero, and no records. */
  const SAMPLE_IMAGE :=
    Image(2, Row(seq(36, _ => Num(0))), Row(seq(12, _ => Num(0))), 3, [], [], [], [], [])

  /** "Lab ", "Sche", "dule", "r 1." and "0.0". */
  function BannerBytes(): seq<Byte> {
    [0x4c, 0x61, 0x62, 0x20] + [0x53, 0x63, 0x68, 0x65] + [0x64, 0x75, 0x6c, 0x65]
    + [0x72, 0x20, 0x31, 0x2e] + [0x30, 0x2e, 0x30]
  }

  lemma {:induction false} TotalRepeated(width: nat, n: nat)
    ensures Total(seq(n, _ => width)) == width * n
  {
    if n > 0 {
      TotalRepeated(width, n - 1);
      assert seq(n, _ => width)[1..] == seq(n - 1, _ => width);
    }
  }

  lemma {:induction false} TotalJoin(a: seq<nat>, b: seq<nat>)
    ensures Total(a + b) == Total(a) + Total(b)
  {
    if a == [] {
      assert a + b == b;
    } else {
      TotalJoin(a[1..], b);
      assert (a + b)[1..] == a[1..] + b;
    }
  }

  lemma ZeroLimits()
    ensures Encode(LIMITS, Row(seq(36, _ => Num(0)))) == Zeros(148)
    ensures Encode(WEIGHTS, Row(seq(12, _ => Num(0)))) == Zeros(48)
  {
    hide Encode, Total, Repeated, Fields, Row;
    RepeatedAt(ANY_WORD, 34);
    RepeatedAt(Weight, 12);
    TotalRepeated(4, 34);
    TotalRepeated(4, 12);
    LastWidths();
    TotalJoin(seq(34, _ => 4), [8, 4]);
    ZeroColumns(Repeated(ANY_WORD, 34) + [Long, ANY_WORD], seq(34, _ => 4) + [8, 4], 148);
    ZeroColumns(Repeated(Weight, 12), seq(12, _ => 4), 48);
  }

  lemma LastWidths()
    ensures Total([8, 4]) == 12
  {
    assert [8, 4][1..] == [4] && [4][1..] == [];
  }

  lemma BannerIs()
    ensures BANNER == BannerBytes() && |BANNER| == 19
  {
  }

  function LimitsCell(): Cell {
    ZeroLimits();
    RawCell(LIMITS, Row(seq(36, _ => Num(0))), Zeros(148))
  }

  function WeightsCell(): Cell {
    ZeroLimits();
    RawCell(WEIGHTS, Row(seq(12, _ => Num(0))), Zeros(48))
  }

  function BannerCell(b: Bounds): Cell {
    BannerIs();
    LittleBytes(0x13);
    RawCell(Text(b.maxString), Str(BannerBytes()), L4(0x13) + BannerBytes())
  }

  /** Format version, epoch, limits, weights, counter and banner. */
  function HeadCells(b: Bounds): seq<Cell> {
    [RangedCell(1, 1, 1), LongCell(2), LimitsCell(), WeightsCell(), LongCell(3), BannerCell(b)]
  }

  /** Four empty lists. */
  function TailCells(b: Bounds): seq<Cell> {
    [EmptyCell(ResourceFormat(b), b.maxPersistenceRecords, Free),
     EmptyCell(StoredRequestFormat(b), b.maxPersistenceRecords, Free),
     EmptyCell(PlacementFormat(b), b.maxPersistenceRecords, Free),
     EmptyCell(ReservationFormat(b), b.maxPersistenceRecords, Free)]
  }

  function SampleCells(b: Bounds): seq<Cell> { HeadCells(b) + TailCells(b) }

  lemma HeadIs(b: Bounds)
    ensures Formats(HeadCells(b)) == DurableHeadFormat(b)
    ensures Values(HeadCells(b)) == PayloadHead(SAMPLE_IMAGE, BANNER)
  {
    hide Encode, Spelled, Fields, Row, L8, L4, Repeated, Zeros, BANNER, BannerBytes, LIMITS, WEIGHTS;
    BannerIs();
  }

  lemma TailIs(b: Bounds)
    ensures Formats(TailCells(b)) == DurableTailFormat(b)
    ensures Values(TailCells(b)) == PayloadTail(SAMPLE_IMAGE)
  {
    hide Encode, Spelled, L4, ResourceFormat, StoredRequestFormat, PlacementFormat, ReservationFormat;
  }

  lemma SamplePayload(b: Bounds)
    ensures Payload(b, SAMPLE_IMAGE) == Spelling(SampleCells(b))
  {
    hide Encode, Spelled, Spelling, Formats, Values, Fields, Row, BANNER, PayloadHead, PayloadTail, DurableHeadFormat,
         DurableTailFormat, HeadCells, TailCells;
    RowSpelled(SampleCells(b));
    CellsJoin(HeadCells(b), TailCells(b));
    HeadIs(b);
    TailIs(b);
  }

  lemma ThreeHashed(h: U64, a: Byte, b: Byte, c: Byte)
    ensures FnvContinue(h, [a, b, c]) == FnvStep(FnvStep(FnvStep(h, a), b), c)
  {
    hide FnvStep;
    TwoHashed(h, a, b);
    assert [a, b, c][..2] == [a, b];
  }

  lemma EpochTwoHashed()
    ensures FnvContinue(0xad2aca7747985764, [0x2, 0x0, 0x0, 0x0]) == 0xc9c28939c99668c6
  {
    hide FnvContinue, FnvStep;
    FourHashed(0xad2aca7747985764, 0x2, 0x0, 0x0, 0x0);
    StepIs(0xad2aca7747985764, 0x2, 0xad2aca77479857, 6, 4, 0, 2, 0xad2aca786d,
           0xd80d6eaea7dc8252);
    StepIs(0xd80d6eaea7dc8252, 0x0, 0xd80d6eaea7dc82, 5, 2, 0, 0, 0xd80d6eb016,
           0xfb5564c73bb17156);
    StepIs(0xfb5564c73bb17156, 0x0, 0xfb5564c73bb171, 5, 6, 0, 0, 0xfb5564c8e6,
           0xc38b948a6e839522);
    StepIs(0xc38b948a6e839522, 0x0, 0xc38b948a6e8395, 2, 2, 0, 0, 0xc38b948bba,
           0xc9c28939c99668c6);
  }

  lemma CounterHashed()
    ensures FnvContinue(0x3bb753833cd6cf86, [0x3, 0x0, 0x0, 0x0]) == 0x51cc485ada9a3655
  {
    hide FnvContinue, FnvStep;
    FourHashed(0x3bb753833cd6cf86, 0x3, 0x0, 0x0, 0x0);
    StepIs(0x3bb753833cd6cf86, 0x3, 0x3bb753833cd6cf, 8, 6, 0, 3, 0x3bb75383a2,
           0x4f526d0061029eff);
    StepIs(0x4f526d0061029eff, 0x0, 0x4f526d0061029e, 15, 15, 0, 0, 0x4f526d00e7,
           0xcbae36a4d7742b4d);
    StepIs(0xcbae36a4d7742b4d, 0x0, 0xcbae36a4d7742b, 4, 13, 0, 0, 0xcbae36a631,
           0x8d32271a1a6593d7);
    StepIs(0x8d32271a1a6593d7, 0x0, 0x8d32271a1a6593, 13, 7, 0, 0, 0x8d32271b0a,
           0x51cc485ada9a3655);
  }

  lemma BannerSizeHashed()
    ensures FnvContinue(0x256b92d4ded83225, [0x13, 0x0, 0x0, 0x0]) == 0xe5eb1b8986821896
  {
    hide FnvContinue, FnvStep;
    FourHashed(0x256b92d4ded83225, 0x13, 0x0, 0x0, 0x0);
    StepIs(0x256b92d4ded83225, 0x13, 0x256b92d4ded832, 2, 5, 1, 3, 0x256b92d51e,
           0x6dfcb5b6a95d51c2);
    StepIs(0x6dfcb5b6a95d51c2, 0x0, 0x6dfcb5b6a95d51, 12, 2, 0, 0, 0x6dfcb5b764,
           0x41ba8761c991eca6);
    StepIs(0x41ba8761c991eca6, 0x0, 0x41ba8761c991ec, 10, 6, 0, 0, 0x41ba876239,
           0x41e0b12982f51e12);
    StepIs(0x41e0b12982f51e12, 0x0, 0x41e0b12982f51e, 1, 2, 0, 0, 0x41e0b129f2,
           0xe5eb1b8986821896);
  }

  lemma BannerHashed()
    ensures FnvContinue(0xe5eb1b8986821896, [0x4c, 0x61, 0x62, 0x20]) == 0xd88f2ac347eb0a97
  {
    hide FnvContinue, FnvStep;
    FourHashed(0xe5eb1b8986821896, 0x4c, 0x61, 0x62, 0x20);
    StepIs(0xe5eb1b8986821896, 0x4c, 0xe5eb1b89868218, 9, 6, 4, 12, 0xe5eb1b8b0d,
           0x3098a4af8f103a6e);
    StepIs(0x3098a4af8f103a6e, 0x61, 0x3098a4af8f103a, 6, 14, 6, 1, 0x3098a4afe1,
           0xa399e5501892a77d);
    StepIs(0xa399e5501892a77d, 0x62, 0xa399e5501892a7, 7, 13, 6, 2, 0xa399e5512e,
           0x9127c619c131f9ad);
    StepIs(0x9127c619c131f9ad, 0x20, 0x9127c619c131f9, 10, 13, 2, 0, 0x9127c61ab7,
           0xd88f2ac347eb0a97);
  }

  lemma BannerSecondHashed()
    ensures FnvContinue(0xd88f2ac347eb0a97, [0x53, 0x63, 0x68, 0x65]) == 0x5c6fcd551525c5e
  {
    hide FnvContinue, FnvStep;
    FourHashed(0xd88f2ac347eb0a97, 0x53, 0x63, 0x68, 0x65);
    StepIs(0xd88f2ac347eb0a97, 0x53, 0xd88f2ac347eb0a, 9, 7, 5, 3, 0xd88f2ac4b7,
           0xe6506dd334634b0c);
    StepIs(0xe6506dd334634b0c, 0x63, 0xe6506dd334634b, 0, 12, 6, 3, 0xe6506dd4bb,
           0xbdf60ce204b92d9d);
    StepIs(0xbdf60ce204b92d9d, 0x68, 0xbdf60ce204b92d, 9, 13, 6, 8, 0xbdf60ce347,
           0x8245d90e06a9174f);
    StepIs(0x8245d90e06a9174f, 0x65, 0x8245d90e06a917, 4, 15, 6, 5, 0x8245d90ee4,
           0x5c6fcd551525c5e);
  }

  lemma BannerThirdHashed()
    ensures FnvContinue(0x5c6fcd551525c5e, [0x64, 0x75, 0x6c, 0x65]) == 0x11a3b966376246d6
  {
    hide FnvContinue, FnvStep;
    FourHashed(0x5c6fcd551525c5e, 0x64, 0x75, 0x6c, 0x65);
    StepIs(0x5c6fcd551525c5e, 0x64, 0x5c6fcd551525c, 5, 14, 6, 4, 0x5c6fcd55b,
           0x237bd8792ef2b68e);
    StepIs(0x237bd8792ef2b68e, 0x75, 0x237bd8792ef2b6, 8, 14, 7, 5, 0x237bd8796b,
           0x3e27d0eac66cec81);
    StepIs(0x3e27d0eac66cec81, 0x6c, 0x3e27d0eac66cec, 8, 1, 6, 12, 0x3e27d0eb30,
           0xa94ebef2b1696b7);
    StepIs(0xa94ebef2b1696b7, 0x65, 0xa94ebef2b1696, 11, 7, 6, 5, 0xa94ebef3d,
           0x11a3b966376246d6);
  }

  lemma BannerFourthHashed()
    ensures FnvContinue(0x11a3b966376246d6, [0x72, 0x20, 0x31, 0x2e]) == 0x77f56bc4a552fff3
  {
    hide FnvContinue, FnvStep;
    FourHashed(0x11a3b966376246d6, 0x72, 0x20, 0x31, 0x2e);
    StepIs(0x11a3b966376246d6, 0x72, 0x11a3b966376246, 13, 6, 7, 2, 0x11a3b96655,
           0x5b7aacb01bfe08ac);
    StepIs(0x5b7aacb01bfe08ac, 0x20, 0x5b7aacb01bfe08, 10, 12, 2, 0, 0x5b7aacb0b7,
           0x6f7bfb3f90a885e4);
    StepIs(0x6f7bfb3f90a885e4, 0x31, 0x6f7bfb3f90a885, 14, 4, 3, 1, 0x6f7bfb404e,
           0x1831c202ce5b68ef);
    StepIs(0x1831c202ce5b68ef, 0x2e, 0x1831c202ce5b68, 14, 15, 2, 14, 0x1831c202f7,
           0x77f56bc4a552fff3);
  }

  lemma BannerEndHashed()
    ensures FnvContinue(0x77f56bc4a552fff3, [0x30, 0x2e, 0x30]) == 0xc3e607469d7f9e7f
  {
    hide FnvContinue, FnvStep;
    ThreeHashed(0x77f56bc4a552fff3, 0x30, 0x2e, 0x30);
    StepIs(0x77f56bc4a552fff3, 0x30, 0x77f56bc4a552ff, 15, 3, 3, 0, 0x77f56bc571,
           0x2905e224ec089859);
    StepIs(0x2905e224ec089859, 0x2e, 0x2905e224ec0898, 5, 9, 2, 14, 0x2905e22531,
           0xbd97bbbd129b1235);
    StepIs(0xbd97bbbd129b1235, 0x30, 0xbd97bbbd129b12, 3, 5, 3, 0, 0xbd97bbbe54,
           0xc3e607469d7f9e7f);
  }

  lemma BannerPartHashed()
    ensures FnvContinue(0x256b92d4ded83225, [0x13, 0x0, 0x0, 0x0] + BannerBytes()) == 0xc3e607469d7f9e7f
  {
    hide FnvContinue;
    var a, b, c, d, e := [0x4c, 0x61, 0x62, 0x20], [0x53, 0x63, 0x68, 0x65],
      [0x64, 0x75, 0x6c, 0x65], [0x72, 0x20, 0x31, 0x2e], [0x30, 0x2e, 0x30];
    FnvJoin(0x256b92d4ded83225, [0x13, 0x0, 0x0, 0x0], BannerBytes());
    FnvJoin(0xe5eb1b8986821896, a + b + c + d, e);
    FnvJoin(0xe5eb1b8986821896, a + b + c, d);
    FnvJoin(0xe5eb1b8986821896, a + b, c);
    FnvJoin(0xe5eb1b8986821896, a, b);
    BannerSizeHashed();
    BannerHashed();
    BannerSecondHashed();
    BannerThirdHashed();
    BannerFourthHashed();
    BannerEndHashed();
  }

  lemma NumberPartsHashed()
    ensures FnvContinue(0xad2aca7747985764, [0x2, 0x0, 0x0, 0x0] + Zeros(4)) == 0x9d19bb4bd820c026
    ensures FnvContinue(0x9d19bb4bd820c026, Zeros(148)) == 0x9c77b6895ef5bb06
    ensures FnvContinue(0x9c77b6895ef5bb06, Zeros(48)) == 0x3bb753833cd6cf86
    ensures FnvContinue(0x3bb753833cd6cf86, [0x3, 0x0, 0x0, 0x0] + Zeros(4)) == 0x256b92d4ded83225
  {
    hide FnvContinue, PrimePower, Zeros;
    PowersOfPrime();
    EpochTwoHashed();
    FnvJoin(0xad2aca7747985764, [0x2, 0x0, 0x0, 0x0], Zeros(4));
    ZerosHashTo(0xc9c28939c99668c6, 4, 0x9ffaac085635bc91, 0x7e1562ca2cdc1931,
                0x9d19bb4bd820c026);
    ZerosHashTo(0x9d19bb4bd820c026, 148, 0x30b613c5868b9ad1, 0x1de48f8b80b6b1bb,
                0x9c77b6895ef5bb06);
    ZerosHashTo(0x9c77b6895ef5bb06, 48, 0x48f9aa9b542778c1, 0x2c9a440d9d749fc8,
                0x3bb753833cd6cf86);
    CounterHashed();
    FnvJoin(0x3bb753833cd6cf86, [0x3, 0x0, 0x0, 0x0], Zeros(4));
    ZerosHashTo(0x51cc485ada9a3655, 4, 0x9ffaac085635bc91, 0x331df967010a5be8,
                0x256b92d4ded83225);
  }

  lemma ListPartsHashed()
    ensures FnvContinue(0xc3e607469d7f9e7f, Zeros(4)) == 0x70a9bd4b67f909ef
    ensures FnvContinue(0x70a9bd4b67f909ef, Zeros(4)) == 0xb38cab6e1fd5245f
    ensures FnvContinue(0xb38cab6e1fd5245f, Zeros(4)) == 0x35ef2111001a5dcf
    ensures FnvContinue(0x35ef2111001a5dcf, Zeros(4)) == 0x9c481a2561ae263f
  {
    hide FnvContinue, PrimePower, Zeros;
    PowersOfPrime();
    ZerosHashTo(0xc3e607469d7f9e7f, 4, 0x9ffaac085635bc91, 0x7a6bb0cce4d42375,
                0x70a9bd4b67f909ef);
    ZerosHashTo(0x70a9bd4b67f909ef, 4, 0x9ffaac085635bc91, 0x4667be0a67a4764d,
                0xb38cab6e1fd5245f);
    ZerosHashTo(0xb38cab6e1fd5245f, 4, 0x9ffaac085635bc91, 0x70342e812b5ac288,
                0x35ef2111001a5dcf);
    ZerosHashTo(0x35ef2111001a5dcf, 4, 0x9ffaac085635bc91, 0x21b4554e458495f4,
                0x9c481a2561ae263f);
  }

  /** The payload: version, epoch, limits, weights, counter, banner, no records. */
  function SampleBytes(): seq<Byte> {
    L4(1) + L8(2) + Zeros(148) + Zeros(48) + L8(3) + (L4(0x13) + BannerBytes()) + Zeros(4) + Zeros(4) + Zeros(4)
    + Zeros(4)
  }

  lemma SampleSpelled(b: Bounds)
    ensures Spelling(SampleCells(b)) == SampleBytes()
  {
    hide Encode, Spelled, Spelling, BannerBytes, Zeros, L4, L8, SampleCells;
    var cs := SampleCells(b);
    SampleCellBytes(b);
    SpellingStep(cs, 9);
    SpellingStep(cs, 8);
    SpellingStep(cs, 7);
    SpellingStep(cs, 6);
    assert Spelling(cs[6..]) == Zeros(4) + Zeros(4) + Zeros(4) + Zeros(4);
    SpellingStep(cs, 5);
    SpellingStep(cs, 4);
    SpellingStep(cs, 3);
    SpellingStep(cs, 2);
    SpellingStep(cs, 1);
    SpellingStep(cs, 0);
    assert cs[0..] == cs;
  }

  lemma SampleCellBytes(b: Bounds)
    ensures var cs := SampleCells(b);
            && |cs| == 10 && Spelling(cs[10..]) == []
            && cs[0].bytes == L4(1) && cs[1].bytes == L8(2) && cs[2].bytes == Zeros(148) && cs[3].bytes == Zeros(48)
            && cs[4].bytes == L8(3) && cs[5].bytes == L4(0x13) + BannerBytes()
            && forall i :: 6 <= i < 10 ==> cs[i].bytes == Zeros(4)
  {
    hide Encode, Spelled, BannerBytes, Fields, Row, LIMITS, WEIGHTS, Repeated, ResourceFormat, StoredRequestFormat,
         PlacementFormat, ReservationFormat;
    assert SampleCells(b)[10..] == [];
  }

  lemma SpellingStep(cs: seq<Cell>, i: nat)
    requires i < |cs|
    ensures Spelling(cs[i..]) == cs[i].bytes + Spelling(cs[i + 1..])
  {
    assert cs[i..][1..] == cs[i + 1..];
  }

  lemma EightBytes(n: Byte)
    ensures L8(n) == [n, 0x0, 0x0, 0x0] + Zeros(4)
  {
  }

  lemma SampleHash()
    ensures Fnv(SampleBytes()) == 0x9c481a2561ae263f
  {
    hide FnvContinue, Zeros, BannerBytes;
    VersionHashed();
    NumberPartsHashed();
    BannerPartHashed();
    ListPartsHashed();
    EightBytes(2);
    EightBytes(3);
    var h := 0xcbf29ce484222325;
    var a := L4(1) + L8(2) + Zeros(148) + Zeros(48);
    var c := a + L8(3) + (L4(0x13) + BannerBytes());
    FnvJoin(h, L4(1), L8(2));
    FnvJoin(h, L4(1) + L8(2), Zeros(148));
    FnvJoin(h, L4(1) + L8(2) + Zeros(148), Zeros(48));
    FnvJoin(h, a, L8(3));
    FnvJoin(h, a + L8(3), L4(0x13) + BannerBytes());
    FnvJoin(h, c, Zeros(4));
    FnvJoin(h, c + Zeros(4), Zeros(4));
    FnvJoin(h, c + Zeros(4) + Zeros(4), Zeros(4));
    FnvJoin(h, c + Zeros(4) + Zeros(4) + Zeros(4), Zeros(4));
  }

  /** The container of that image: "LSCHED01", format version, payload length, hash, payload. */
  lemma ContainerAnswer(b: Bounds)
    ensures EncodeImage(b, SAMPLE_IMAGE)
         == [0x4c, 0x53, 0x43, 0x48, 0x45, 0x44, 0x30, 0x31] + [0x1, 0x0, 0x0, 0x0]
            + ([0xff, 0x0, 0x0, 0x0] + [0x0, 0x0, 0x0, 0x0])
            + ([0x3f, 0x26, 0xae, 0x61] + [0x25, 0x1a, 0x48, 0x9c])
            + SampleBytes()
  {
    hide Little, Fnv, SampleBytes, SampleCells, Payload, Spelling;
    SamplePayload(b);
    SampleSpelled(b);
    SampleHash();
    SampleLength();
    HeaderNumbers();
  }

  lemma HeaderNumbers()
    ensures Little(1, 4) == [0x1, 0x0, 0x0, 0x0]
    ensures Little(255, 8) == [0xff, 0x0, 0x0, 0x0] + [0x0, 0x0, 0x0, 0x0]
    ensures Little(0x9c481a2561ae263f, 8) == [0x3f, 0x26, 0xae, 0x61] + [0x25, 0x1a, 0x48, 0x9c]
  {
    hide Little;
    FourLittle(1, 0, 0, 0);
    EightLittle(255, 0);
    FourLittle(0xff, 0, 0, 0);
    FourLittle(0, 0, 0, 0);
    EightLittle(0x61ae263f, 0x9c481a25);
    FourLittle(0x3f, 0x26, 0xae, 0x61);
    FourLittle(0x25, 0x1a, 0x48, 0x9c);
  }

  lemma SampleLength()
    ensures |SampleBytes()| == 255
  {
  }

  // ---------------------------------------------------------------- printed numbers, identities and keys

  lemma DigitAnswers()
    ensures forall d :: 0 <= d < 10 ==> DigitChar(d) == "0123456789"[d]
    ensures forall d :: 0 <= d < 16 ==> HexChar(d) == "0123456789abcdef"[d]
  {
  }

  /** Most significant digit first, without leading zeros, and with a sign if negative. */
  lemma DecimalAnswer()
    ensures Decimal(0) == "0" && Decimal(1234567890) == "1234567890" && DecimalSigned(-205) == "-205"
  {
    DigitAnswers();
    assert Decimal(12) == "12" && Decimal(123) == "123" && Decimal(1234) == "1234" && Decimal(12345) == "12345";
    assert Decimal(123456) == "123456" && Decimal(1234567) == "1234567" && Decimal(12345678) == "12345678";
    assert Decimal(123456789) == "123456789";
    assert Decimal(20) == "20" && Decimal(205) == "205";
  }

  lemma HexStep(v: nat, width: nat, d: int)
    requires 0 <= d < 16
    ensures Hex(16 * v + d, width + 1) == Hex(v, width) + [HexChar(d)]
  {
  }

  lemma HexStart()
    ensures Hex(0x01234567, 8) == "01234567"
  {
    hide Hex, HexChar;
    DigitAnswers();
    NoHex();
    HexStep(0x0, 0, 0x0);
    HexStep(0x0, 1, 0x1);
    HexStep(0x01, 2, 0x2);
    HexStep(0x012, 3, 0x3);
    HexStep(0x0123, 4, 0x4);
    HexStep(0x01234, 5, 0x5);
    HexStep(0x012345, 6, 0x6);
    HexStep(0x0123456, 7, 0x7);
  }

  lemma NoHex()
    ensures Hex(0, 0) == ""
  {
  }

  /** Sixteen lower-case digits after the prefix of the type. */
  lemma IdAnswer()
    ensures IdText("res", 0x0123456789abcdef) == "res-0123456789abcdef"
  {
    hide Hex, HexChar;
    DigitAnswers();
    HexStart();
    HexStep(0x01234567, 8, 0x8);
    HexStep(0x012345678, 9, 0x9);
    HexStep(0x0123456789, 10, 0xa);
    HexStep(0x0123456789a, 11, 0xb);
    HexStep(0x0123456789ab, 12, 0xc);
    HexStep(0x0123456789abc, 13, 0xd);
    HexStep(0x0123456789abcd, 14, 0xe);
    HexStep(0x0123456789abcde, 15, 0xf);
  }

  /** Sorted identities are separated by commas and the parts of a key by colons. */
  lemma KeyAnswer(x: U64, y: U64, a: string, b: string, c: string)
    ensures ResourceKey([x, y]) == IdText("res", x) + "," + IdText("res", y)
    ensures Canonical.Joined([a, b, c]) == a + ":" + b + ":" + c
  {
    assert [x, y][1..] == [y] && [a, b, c][1..] == [b, c] && [b, c][1..] == [c];
    assert Canonical.Joined([b, c]) == b + ":" + c;
  }
}
