/** Bytes, little-endian integers and the FNV-1a 64 hash (src/codec.cpp:7-101, src/canonical.cpp:23-34;
    section 2, "FNV Basics", of draft-eastlake-fnv). */
module Bytes {
  import opened Prelude

  type Byte = x: int | 0 <= x < 256

  // ---------------------------------------------------------------- little-endian integers

  function Pow256(width: nat): nat {
    if width == 0 then 1 else 256 * Pow256(width - 1)
  }

  lemma Pow256Values()
    ensures Pow256(1) == 0x100 && Pow256(2) == 0x1_0000
    ensures Pow256(4) == TWO_32 && Pow256(8) == TWO_64
  {
    assert Pow256(3) == 0x100_0000 && Pow256(5) == 0x100_0000_0000;
    assert Pow256(6) == 0x1_0000_0000_0000 && Pow256(7) == 0x100_0000_0000_0000;
  }

  /** The low `width` bytes of a number, lowest first. */
  function Little(value: nat, width: nat): seq<Byte> {
    if width == 0 then [] else [value % 256] + Little(value / 256, width - 1)
  }

  function FromLittle(bytes: seq<Byte>): nat {
    if bytes == [] then 0 else bytes[0] + 256 * FromLittle(bytes[1..])
  }

  lemma {:induction false} LittleLength(value: nat, width: nat)
    ensures |Little(value, width)| == width
  {
    if width > 0 {
      LittleLength(value / 256, width - 1);
    }
  }

  /** Numbers that fit come back. */
  lemma {:induction false} LittleRoundTrip(value: nat, width: nat)
    requires value < Pow256(width)
    ensures |Little(value, width)| == width && FromLittle(Little(value, width)) == value
  {
    if width > 0 {
      LittleRoundTrip(value / 256, width - 1);
    }
  }

  /** Bytes come back from the number they spell. */
  lemma {:induction false} FromLittleRoundTrip(bytes: seq<Byte>)
    ensures FromLittle(bytes) < Pow256(|bytes|) && Little(FromLittle(bytes), |bytes|) == bytes
  {
    if bytes != [] {
      FromLittleRoundTrip(bytes[1..]);
      assert bytes == [bytes[0]] + bytes[1..];
    }
  }

  lemma {:induction false} FromLittleJoin(a: seq<Byte>, b: seq<Byte>)
    ensures FromLittle(a + b) == FromLittle(a) + Pow256(|a|) * FromLittle(b)
  {
    if a == [] {
      assert a + b == b;
    } else {
      FromLittleJoin(a[1..], b);
      assert (a + b)[1..] == a[1..] + b;
      var p, v := Pow256(|a| - 1), FromLittle(b);
      MulRegroup(256, p, v);
    }
  }

  lemma MulRegroup(k: nat, p: nat, v: nat)
    ensures (k * p) * v == k * (p * v)
  {
  }

  /** A wide number is its low half followed by its high half. */
  lemma LittleHalves(low: nat, high: nat, width: nat)
    requires low < Pow256(width) && high < Pow256(width)
    ensures Little(low + Pow256(width) * high, 2 * width) == Little(low, width) + Little(high, width)
  {
    var bytes := Little(low, width) + Little(high, width);
    LittleRoundTrip(low, width);
    LittleRoundTrip(high, width);
    FromLittleJoin(Little(low, width), Little(high, width));
    FromLittleRoundTrip(bytes);
  }

  /** A number that is too wide loses its high bytes. */
  lemma {:induction false} LittleCuts(value: nat, width: nat)
    ensures Pow256(width) > 0 && Little(value % Pow256(width), width) == Little(value, width)
  {
    if width > 0 {
      LittleCuts(value / 256, width - 1);
      CutSplits(value, Pow256(width - 1));
    }
  }

  lemma CutSplits(value: nat, m: nat)
    requires m > 0
    ensures value % (256 * m) % 256 == value % 256 && value % (256 * m) / 256 == value / 256 % m
  {
    var q, r := value / 256 / m, value / 256 % m;
    assert value == 256 * (q * m + r) + value % 256;
    var low := 256 * r + value % 256;
    assert value == (256 * m) * q + low;
    RemainderUnique(value, 256 * m, q, low);
    assert low % 256 == value % 256 && low / 256 == r;
  }

  lemma RemainderUnique(value: nat, d: nat, q: nat, r: nat)
    requires d > 0 && r < d && value == d * q + r
    ensures value % d == r
  {
    var p := value / d;
    assert value == d * p + value % d;
    if p < q {
      MulMonotone(d, p + 1, q);
    } else if q < p {
      MulMonotone(d, q + 1, p);
    }
  }

  lemma FromLittleInjective(a: seq<Byte>, b: seq<Byte>)
    requires |a| == |b| && FromLittle(a) == FromLittle(b)
    ensures a == b
  {
    FromLittleRoundTrip(a);
    FromLittleRoundTrip(b);
  }

  /** The number stored at a place. */
  function NumberAt(bytes: seq<Byte>, at: nat, width: nat): nat
    requires at + width <= |bytes|
  {
    FromLittle(bytes[at..at + width])
  }

  /** Changing one of its bytes changes the number. */
  lemma NumbersApart(f: seq<Byte>, g: seq<Byte>, i: nat, at: nat, width: nat)
    requires |f| == |g| && at <= i < at + width <= |f| && f[i] != g[i]
    ensures NumberAt(f, at, width) != NumberAt(g, at, width)
  {
    hide FromLittle;
    assert f[at..at + width][i - at] == f[i] && g[at..at + width][i - at] == g[i];
    if NumberAt(f, at, width) == NumberAt(g, at, width) {
      FromLittleInjective(f[at..at + width], g[at..at + width]);
    }
  }

  // ---------------------------------------------------------------- exclusive or

  /** Bitwise exclusive or of two naturals. */
  function Xor(a: nat, b: nat): nat
    decreases a + b
  {
    if a == 0 then b
    else if b == 0 then a
    else (a % 2 + b % 2) % 2 + 2 * Xor(a / 2, b / 2)
  }

  lemma {:induction false} XorDigits(a: nat, b: nat)
    ensures Xor(a, b) == (a % 2 + b % 2) % 2 + 2 * Xor(a / 2, b / 2)
  {
  }

  function Pow2(k: nat): nat {
    if k == 0 then 1 else 2 * Pow2(k - 1)
  }

  lemma Pow2Values()
    ensures Pow2(32) == TWO_32 && Pow2(64) == TWO_64
  {
    assert Pow2(8) == 0x100;
    Pow2Doubles(8);
    Pow2Doubles(16);
    Pow2Doubles(32);
  }

  lemma Pow2Doubles(k: nat)
    ensures Pow2(2 * k) == Pow2(k) * Pow2(k)
  {
    Pow2Adds(k, k);
  }

  lemma {:induction false} Pow2Adds(a: nat, b: nat)
    ensures Pow2(a + b) == Pow2(a) * Pow2(b)
  {
    if a > 0 {
      Pow2Adds(a - 1, b);
      MulRegroup(2, Pow2(a - 1), Pow2(b));
    }
  }

  /** The low `k` bits, and what is above them. */
  function Low(x: nat, k: nat): nat {
    if k == 0 then 0 else x % 2 + 2 * Low(x / 2, k - 1)
  }

  function High(x: nat, k: nat): nat {
    if k == 0 then x else High(x / 2, k - 1)
  }

  lemma {:induction false} LowHigh(x: nat, k: nat)
    ensures x == Low(x, k) + Pow2(k) * High(x, k) && Low(x, k) < Pow2(k)
  {
    if k > 0 {
      LowHigh(x / 2, k - 1);
      MulRegroup(2, Pow2(k - 1), High(x / 2, k - 1));
    }
  }

  lemma LowIsRemainder(x: nat)
    ensures Low(x, 32) == x % TWO_32 && Low(x, 64) == x % TWO_64
  {
    hide Low, High, Pow2;
    Pow2Values();
    LowHigh(x, 32);
    LowHigh(x, 64);
  }

  /** Keeping the low bits before or after is the same. */
  lemma {:induction false} XorLow(a: nat, b: nat, k: nat)
    ensures Low(Xor(a, b), k) == Xor(Low(a, k), Low(b, k))
    decreases k
  {
    hide Xor;
    if k == 0 {
      XorSelf(0);
    } else {
      XorLow(a / 2, b / 2, k - 1);
      XorDigits(a, b);
      XorDigits(Low(a, k), Low(b, k));
    }
  }

  lemma XorFits(a: U64, b: U64)
    ensures Xor(a, b) < TWO_64 && Xor(a, b) % TWO_32 == Xor(a % TWO_32, b % TWO_32)
  {
    hide Low, Xor;
    XorLow(a, b, 64);
    XorLow(a, b, 32);
    LowIsRemainder(a);
    LowIsRemainder(b);
    LowIsRemainder(Xor(a, b));
  }

  lemma {:induction false} XorCancels(a: nat, b: nat)
    ensures Xor(a, Xor(a, b)) == b
    decreases a + b
  {
    hide Xor;
    XorDigits(a, b);
    XorDigits(a, Xor(a, b));
    if a == 0 {
      XorZero(b);
    } else if b == 0 {
      XorZero(a);
      XorSelf(a);
    } else {
      XorCancels(a / 2, b / 2);
    }
  }

  lemma XorZero(a: nat)
    ensures Xor(0, a) == a == Xor(a, 0)
  {
  }

  lemma {:induction false} XorSelf(a: nat)
    ensures Xor(a, a) == 0
  {
    if a > 0 {
      XorDigits(a, a);
      XorSelf(a / 2);
    }
  }

  lemma {:induction false} XorCommutes(a: nat, b: nat)
    ensures Xor(a, b) == Xor(b, a)
    decreases a + b
  {
    if a != 0 && b != 0 {
      XorCommutes(a / 2, b / 2);
    }
  }

  lemma XorInjective(a: nat, b: nat, c: nat)
    requires Xor(a, b) == Xor(a, c)
    ensures b == c
  {
    XorCancels(a, b);
    XorCancels(a, c);
  }

  // ---------------------------------------------------------------- FNV-1a

  const FNV_PRIME := 0x100000001b3
  const FNV_OFFSET := 0xcbf29ce484222325
  /** Inverses of the prime modulo 2^64 and modulo 2^32. */
  const INVERSE_64 := 0xce965057aff6957b
  const INVERSE_32 := 0xaff6957b

  function FnvStep(hash: U64, b: Byte): U64 {
    Wrap64(Xor(hash, b) * FNV_PRIME)
  }

  /** fnv1a64_continue. */
  function FnvContinue(hash: U64, bytes: seq<Byte>): U64 {
    if bytes == [] then hash else FnvStep(FnvContinue(hash, bytes[..|bytes| - 1]), bytes[|bytes| - 1])
  }

  function Fnv(bytes: seq<Byte>): U64 { FnvContinue(FNV_OFFSET, bytes) }

  lemma {:induction false} FnvJoin(hash: U64, a: seq<Byte>, b: seq<Byte>)
    ensures FnvContinue(hash, a + b) == FnvContinue(FnvContinue(hash, a), b)
  {
    if b == [] {
      assert a + b == a;
    } else {
      FnvJoin(hash, a, b[..|b| - 1]);
      assert (a + b)[..|a| + |b| - 1] == a + b[..|b| - 1];
    }
  }

  lemma FnvIs(bytes: seq<Byte>)
    ensures FnvContinue(FNV_OFFSET, bytes) == Fnv(bytes)
  {
  }

  method HashBytes(seed: U64, bytes: seq<Byte>) returns (hash: U64)
    ensures hash == FnvContinue(seed, bytes)
  {
    hash := seed;
    for i := 0 to |bytes|
      invariant hash == FnvContinue(seed, bytes[..i])
    {
      assert bytes[..i + 1][..i] == bytes[..i];
      hash := Wrap64(Xor(hash, bytes[i]) * FNV_PRIME);
    }
    assert bytes[..|bytes|] == bytes;
  }

  /** Multiplying by the odd prime loses nothing modulo 2^64. */
  lemma TimesPrimeInjective64(x: nat, y: nat)
    requires x < TWO_64 && y < TWO_64 && x * FNV_PRIME % TWO_64 == y * FNV_PRIME % TWO_64
    ensures x == y
  {
    PrimeUndone64(x);
    PrimeUndone64(y);
  }

  lemma PrimeUndone64(x: nat)
    requires x < TWO_64
    ensures (x * FNV_PRIME % TWO_64) * INVERSE_64 % TWO_64 == x
  {
    var q := x * FNV_PRIME / TWO_64;
    var k := FNV_PRIME * INVERSE_64 / TWO_64;
    assert FNV_PRIME * INVERSE_64 == k * TWO_64 + 1;
    var r := x * FNV_PRIME % TWO_64;
    assert r * INVERSE_64 == TWO_64 * (x * k - q * INVERSE_64) + x;
  }

  /** Nor modulo 2^32. */
  lemma TimesPrimeInjective32(x: nat, y: nat)
    requires x < TWO_32 && y < TWO_32 && x * FNV_PRIME % TWO_32 == y * FNV_PRIME % TWO_32
    ensures x == y
  {
    PrimeUndone32(x);
    PrimeUndone32(y);
  }

  lemma PrimeUndone32(x: nat)
    requires x < TWO_32
    ensures (x * FNV_PRIME % TWO_32) * INVERSE_32 % TWO_32 == x
  {
    var q := x * FNV_PRIME / TWO_32;
    var k := FNV_PRIME * INVERSE_32 / TWO_32;
    assert FNV_PRIME * INVERSE_32 == k * TWO_32 + 1;
    var r := x * FNV_PRIME % TWO_32;
    assert r * INVERSE_32 == TWO_32 * (x * k - q * INVERSE_32) + x;
  }

  // ---------------------------------------------------------------- one changed byte changes the hash

  lemma XorLeftInjective(a: nat, b: nat, c: nat)
    requires Xor(b, a) == Xor(c, a)
    ensures b == c
  {
    XorCommutes(a, b);
    XorCommutes(a, c);
    XorInjective(a, b, c);
  }

  /** Different seeds stay different, whatever is hashed after them. */
  lemma {:induction false} FnvSeedInjective(h: U64, g: U64, bytes: seq<Byte>)
    requires FnvContinue(h, bytes) == FnvContinue(g, bytes)
    ensures h == g
  {
    hide Xor;
    if bytes != [] {
      var n := |bytes| - 1;
      var h', g' := FnvContinue(h, bytes[..n]), FnvContinue(g, bytes[..n]);
      XorFits(h', bytes[n]);
      XorFits(g', bytes[n]);
      TimesPrimeInjective64(Xor(h', bytes[n]), Xor(g', bytes[n]));
      XorLeftInjective(bytes[n], h', g');
      FnvSeedInjective(h, g, bytes[..n]);
    }
  }

  lemma SameRemainder(a: int, b: int, k: int)
    requires a == b + TWO_32 * k
    ensures a % TWO_32 == b % TWO_32
  {
  }

  /** The low half of a step depends on the low half of the hash only. */
  lemma FnvStepLow(h: U64, b: Byte)
    ensures FnvStep(h, b) % TWO_32 == Xor(h % TWO_32, b) * FNV_PRIME % TWO_32
    ensures Xor(h % TWO_32, b) < TWO_32
  {
    hide Xor;
    XorFits(h, b);
    var x := Xor(h, b);
    var low, q := x % TWO_32, x / TWO_32;
    SameRemainder(x * FNV_PRIME, low * FNV_PRIME, q * FNV_PRIME);
    var wraps := x * FNV_PRIME / TWO_64;
    SameRemainder(x * FNV_PRIME, FnvStep(h, b), wraps * TWO_32);
  }

  lemma StepsApart(h: U64, g: U64, b: Byte, c: Byte)
    requires (h % TWO_32 != g % TWO_32 && b == c) || (h == g && b != c)
    ensures FnvStep(h, b) % TWO_32 != FnvStep(g, c) % TWO_32
  {
    hide Xor, FnvStep;
    FnvStepLow(h, b);
    FnvStepLow(g, c);
    if FnvStep(h, b) % TWO_32 == FnvStep(g, c) % TWO_32 {
      TimesPrimeInjective32(Xor(h % TWO_32, b), Xor(g % TWO_32, c));
      if b == c {
        XorLeftInjective(b, h % TWO_32, g % TWO_32);
      } else {
        XorInjective(h % TWO_32, b, c);
      }
    }
  }

  lemma {:induction false} StayApart(h: U64, g: U64, bytes: seq<Byte>)
    requires h % TWO_32 != g % TWO_32
    ensures FnvContinue(h, bytes) % TWO_32 != FnvContinue(g, bytes) % TWO_32
  {
    hide FnvStep;
    if bytes != [] {
      var n := |bytes| - 1;
      StayApart(h, g, bytes[..n]);
      StepsApart(FnvContinue(h, bytes[..n]), FnvContinue(g, bytes[..n]), bytes[n], bytes[n]);
    }
  }

  /** Changing any one byte changes the low 32 bits of the hash, and so the hash. */
  lemma {:induction false} FnvDetectsChange(seed: U64, bytes: seq<Byte>, i: nat, b: Byte)
    requires i < |bytes| && b != bytes[i]
    ensures FnvContinue(seed, bytes[i := b]) % TWO_32 != FnvContinue(seed, bytes) % TWO_32
  {
    hide FnvStep;
    var before, after := bytes[..i], bytes[i + 1..];
    var h := FnvContinue(seed, before);
    assert bytes == before + [bytes[i]] + after && bytes[i := b] == before + [b] + after;
    FnvJoin(seed, before + [bytes[i]], after);
    FnvJoin(seed, before + [b], after);
    FnvJoin(seed, before, [bytes[i]]);
    FnvJoin(seed, before, [b]);
    FnvOne(h, b);
    FnvOne(h, bytes[i]);
    StepsApart(h, h, b, bytes[i]);
    StayApart(FnvStep(h, b), FnvStep(h, bytes[i]), after);
  }

  lemma FnvOne(h: U64, b: Byte)
    ensures FnvContinue(h, [b]) == FnvStep(h, b)
  {
    assert [b][..0] == [];
  }
}
