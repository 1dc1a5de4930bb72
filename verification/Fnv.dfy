/** util/hash_fun.h: the FNV hashes, on unsigned integers that wrap around at 2^32 and at 2^64. */
module Fnv {

  const M32: int := 0x1_0000_0000
  const M64: int := 0x1_0000_0000_0000_0000

  type Byte = c: nat | c < 256 witness 0
  type U32 = x: nat | x < M32 witness 0
  type U64 = x: nat | x < M64 witness 0

  const FNV_32_HASH_START: U32 := 2166136261
  const FNV_64_HASH_START: U64 := 14695981039346656037

  const PRIME_32: int := 16777619
  const PRIME_64: int := 0x100_0000_01b3

  /** The inverses of the primes modulo 2^32 and 2^64. */
  const INVERSE_32: int := 0x359c_449b
  const INVERSE_64: int := 0xce96_5057_aff6_957b

  /** Exclusive or, bit by bit. */
  function Xor(a: nat, b: nat): nat
    decreases a + b
  {
    if a + b == 0 then 0 else 2 * Xor(a / 2, b / 2) + if a % 2 == b % 2 then 0 else 1
  }

  function Pow2(bits: nat): nat {
    if bits == 0 then 1 else 2 * Pow2(bits - 1)
  }

  lemma {:induction false} PowersAdd(a: nat, b: nat)
    ensures Pow2(a + b) == Pow2(a) * Pow2(b)
  {
    if b > 0 {
      PowersAdd(a, b - 1);
    }
  }

  lemma Powers()
    ensures Pow2(1) == 2 && Pow2(4) == 16 && Pow2(5) == 32 && Pow2(7) == 128 && Pow2(8) == 256
    ensures Pow2(24) == 0x100_0000 && Pow2(32) == M32 && Pow2(40) == 0x100_0000_0000 && Pow2(64) == M64
  {
    assert Pow2(4) == 16;
    PowersAdd(4, 4);
    PowersAdd(8, 8);
    PowersAdd(16, 8);
    PowersAdd(16, 16);
    PowersAdd(32, 8);
    PowersAdd(32, 32);
  }

  function Shl32(x: U32, bits: nat): U32 {
    x * Pow2(bits) % M32
  }

  function Shl64(x: U64, bits: nat): U64 {
    x * Pow2(bits) % M64
  }

  function Add32(x: U32, y: U32): U32 {
    (x + y) % M32
  }

  function Add64(x: U64, y: U64): U64 {
    (x + y) % M64
  }

  /** hash ^= *s first widens the char, which is signed. */
  function Extend32(c: Byte): U32 {
    if c < 0x80 then c else c + M32 - 256
  }

  function Extend64(c: Byte): U64 {
    if c < 0x80 then c else c + M64 - 256
  }

  /** hash += (hash << 1) + ... */
  function Shifts32(h: U32): U32 {
    Add32(h, Add32(Add32(Add32(Add32(Shl32(h, 1), Shl32(h, 4)), Shl32(h, 7)), Shl32(h, 8)), Shl32(h, 24)))
  }

  function Shifts64(h: U64): U64 {
    Add64(h, Add64(Add64(Add64(Add64(Add64(
      Shl64(h, 1), Shl64(h, 4)), Shl64(h, 5)), Shl64(h, 7)), Shl64(h, 8)), Shl64(h, 40)))
  }

  function Step32(hash: U32, c: Byte): U32 {
    XorBelow32(Shifts32(hash), Extend32(c));
    Xor(Shifts32(hash), Extend32(c))
  }

  function Step64(hash: U64, c: Byte): U64 {
    XorBelow64(Shifts64(hash), Extend64(c));
    Xor(Shifts64(hash), Extend64(c))
  }

  // ---------------------------------------------------------------------------------------------
  // Exclusive or

  lemma {:induction false} XorBelow(a: nat, b: nat, bits: nat)
    requires a < Pow2(bits) && b < Pow2(bits)
    ensures Xor(a, b) < Pow2(bits)
    decreases bits
  {
    if bits > 0 {
      XorBelow(a / 2, b / 2, bits - 1);
    }
  }

  lemma XorBelow32(a: U32, b: U32)
    ensures Xor(a, b) < M32
  {
    Powers();
    XorBelow(a, b, 32);
  }

  lemma XorBelow64(a: U64, b: U64)
    ensures Xor(a, b) < M64
  {
    Powers();
    XorBelow(a, b, 64);
  }

  lemma XorHalves(a: nat, b: nat)
    ensures Xor(a, b) / 2 == Xor(a / 2, b / 2)
    ensures Xor(a, b) % 2 == if a % 2 == b % 2 then 0 else 1
  {
  }

  lemma {:induction false} XorUndone(a: nat, b: nat)
    ensures Xor(Xor(a, b), b) == a
    decreases a + b
  {
    if a + b > 0 {
      XorHalves(a, b);
      XorHalves(Xor(a, b), b);
      hide Xor;
      XorUndone(a / 2, b / 2);
    }
  }

  lemma {:induction false} XorCommutes(a: nat, b: nat)
    ensures Xor(a, b) == Xor(b, a)
    decreases a + b
  {
    if a + b > 0 {
      XorCommutes(a / 2, b / 2);
    }
  }

  // ---------------------------------------------------------------------------------------------
  // Arithmetic modulo 2^32 and 2^64

  lemma Reduced32(x: int, h: int, k: int)
    requires x == h + M32 * k && 0 <= h < M32
    ensures x % M32 == h
  {
  }

  lemma Reduced64(x: int, h: int, k: int)
    requires x == h + M64 * k && 0 <= h < M64
    ensures x % M64 == h
  {
  }

  function Mod32(x: nat): U32 {
    x % M32
  }

  function Mod64(x: nat): U64 {
    x % M64
  }

  lemma AddReduced32(x: nat, y: nat, z: nat)
    requires z == x + y
    ensures Add32(Mod32(x), Mod32(y)) == Mod32(z)
  {
  }

  lemma AddReduced64(x: nat, y: nat, z: nat)
    requires z == x + y
    ensures Add64(Mod64(x), Mod64(y)) == Mod64(z)
  {
  }

  lemma ShlValues32(h: U32)
    ensures Shl32(h, 1) == Mod32(h * 0x2)
            && Shl32(h, 4) == Mod32(h * 0x10)
            && Shl32(h, 7) == Mod32(h * 0x80)
            && Shl32(h, 8) == Mod32(h * 0x100)
            && Shl32(h, 24) == Mod32(h * 0x1000000)
  {
    Powers();
    hide Pow2;
  }

  lemma ShlValues64(h: U64)
    ensures Shl64(h, 1) == Mod64(h * 0x2)
            && Shl64(h, 4) == Mod64(h * 0x10)
            && Shl64(h, 5) == Mod64(h * 0x20)
            && Shl64(h, 7) == Mod64(h * 0x80)
            && Shl64(h, 8) == Mod64(h * 0x100)
            && Shl64(h, 40) == Mod64(h * 0x10000000000)
  {
    Powers();
    hide Pow2;
  }

  /** Shifting and adding multiplies by the FNV prime. */
  lemma ShiftsMultiply32(h: U32)
    ensures Shifts32(h) == Mod32(h * PRIME_32)
  {
    assert Mod32(h) == h;
    hide Shl32, Add32, Pow2, Mod32;
    ShlValues32(h);
    AddReduced32(h * 0x2, h * 0x10, h * 0x12);
    AddReduced32(h * 0x12, h * 0x80, h * 0x92);
    AddReduced32(h * 0x92, h * 0x100, h * 0x192);
    AddReduced32(h * 0x192, h * 0x1000000, h * 0x1000192);
    AddReduced32(h, h * (PRIME_32 - 1), h * PRIME_32);
  }

  lemma ShiftsMultiply64(h: U64)
    ensures Shifts64(h) == Mod64(h * PRIME_64)
  {
    assert Mod64(h) == h;
    hide Shl64, Add64, Pow2, Mod64;
    ShlValues64(h);
    AddReduced64(h * 0x2, h * 0x10, h * 0x12);
    AddReduced64(h * 0x12, h * 0x20, h * 0x32);
    AddReduced64(h * 0x32, h * 0x80, h * 0xb2);
    AddReduced64(h * 0xb2, h * 0x100, h * 0x1b2);
    AddReduced64(h * 0x1b2, h * 0x10000000000, h * 0x100000001b2);
    AddReduced64(h, h * (PRIME_64 - 1), h * PRIME_64);
  }

  lemma MultiplyUndone32(h: U32)
    ensures (h * PRIME_32 % M32) * INVERSE_32 % M32 == h
  {
    var q := h * PRIME_32 / M32;
    Reduced32((h * PRIME_32 % M32) * INVERSE_32, h, h * (PRIME_32 * INVERSE_32 / M32) - q * INVERSE_32);
  }

  lemma MultiplyUndone64(h: U64)
    ensures (h * PRIME_64 % M64) * INVERSE_64 % M64 == h
  {
    var q := h * PRIME_64 / M64;
    Reduced64((h * PRIME_64 % M64) * INVERSE_64, h, h * (PRIME_64 * INVERSE_64 / M64) - q * INVERSE_64);
  }

  // ---------------------------------------------------------------------------------------------
  // One step

  /** A step is a bijection on the hash state: one formula undoes it on either side. */
  function Back32(hash: U32, c: Byte): U32 {
    XorBelow32(hash, Extend32(c));
    Xor(hash, Extend32(c)) * INVERSE_32 % M32
  }

  function Back64(hash: U64, c: Byte): U64 {
    XorBelow64(hash, Extend64(c));
    Xor(hash, Extend64(c)) * INVERSE_64 % M64
  }

  lemma StepBijective32(hash: U32, c: Byte)
    ensures Back32(Step32(hash, c), c) == hash && Step32(Back32(hash, c), c) == hash
  {
    ShiftsMultiply32(hash);
    XorUndone(Shifts32(hash), Extend32(c));
    MultiplyUndone32(hash);
    XorBelow32(hash, Extend32(c));
    var x := Xor(hash, Extend32(c));
    ShiftsMultiply32(Back32(hash, c));
    UnmultiplyUndone32(x);
    XorUndone(hash, Extend32(c));
  }

  lemma UnmultiplyUndone32(h: U32)
    ensures (h * INVERSE_32 % M32) * PRIME_32 % M32 == h
  {
    var q := h * INVERSE_32 / M32;
    Reduced32((h * INVERSE_32 % M32) * PRIME_32, h, h * (PRIME_32 * INVERSE_32 / M32) - q * PRIME_32);
  }

  lemma StepBijective64(hash: U64, c: Byte)
    ensures Back64(Step64(hash, c), c) == hash && Step64(Back64(hash, c), c) == hash
  {
    ShiftsMultiply64(hash);
    XorUndone(Shifts64(hash), Extend64(c));
    MultiplyUndone64(hash);
    XorBelow64(hash, Extend64(c));
    var x := Xor(hash, Extend64(c));
    ShiftsMultiply64(Back64(hash, c));
    UnmultiplyUndone64(x);
    XorUndone(hash, Extend64(c));
  }

  lemma UnmultiplyUndone64(h: U64)
    ensures (h * INVERSE_64 % M64) * PRIME_64 % M64 == h
  {
    var q := h * INVERSE_64 / M64;
    var r := h * INVERSE_64 % M64;
    Expanded64(h, q, r);
    Reduced64(r * PRIME_64, h, h * (PRIME_64 * INVERSE_64 / M64) - q * PRIME_64);
  }

  lemma Expanded64(h: int, q: int, r: int)
    requires r == h * INVERSE_64 - q * M64
    ensures r * PRIME_64 == h + M64 * (h * (PRIME_64 * INVERSE_64 / M64) - q * PRIME_64)
  {
  }

  /** The FNV-1 step of draft-eastlake-fnv, section 2, with the octet unsigned. */
  function Fnv1Step(hash: nat, c: Byte, prime: nat, m: nat): nat
    requires m != 0
  {
    Xor(hash * prime % m, c)
  }

  function Fnv1(hash: nat, buf: seq<Byte>, prime: nat, m: nat): nat
    requires m != 0
    decreases |buf|
  {
    if buf == [] then hash else Fnv1(Fnv1Step(hash, buf[0], prime, m), buf[1..], prime, m)
  }

  lemma XorInjective(a: nat, b: nat, b': nat)
    ensures Xor(a, b) == Xor(a, b') <==> b == b'
  {
    XorCommutes(a, b);
    XorCommutes(a, b');
    XorUndone(b, a);
    XorUndone(b', a);
  }

  /** The code agrees with FNV-1 exactly on the bytes that a signed char keeps. */
  lemma StepIsFnv1(h32: U32, h64: U64, c: Byte)
    ensures Step32(h32, c) == Fnv1Step(h32, c, PRIME_32, M32) <==> c < 0x80
    ensures Step64(h64, c) == Fnv1Step(h64, c, PRIME_64, M64) <==> c < 0x80
  {
    ShiftsMultiply32(h32);
    ShiftsMultiply64(h64);
    XorInjective(Shifts32(h32), Extend32(c), c);
    XorInjective(Shifts64(h64), Extend64(c), c);
  }

  // ---------------------------------------------------------------------------------------------
  // Whole buffers

  /** What the loops compute: the step applied to each byte in turn. */
  function Fold<H>(step: (H, Byte) -> H, hash: H, buf: seq<Byte>): H
    decreases |buf|
  {
    if buf == [] then hash else Fold(step, step(hash, buf[0]), buf[1..])
  }

  function Hash32(hash: U32, buf: seq<Byte>): U32 {
    Fold(Step32, hash, buf)
  }

  function Hash64(hash: U64, buf: seq<Byte>): U64 {
    Fold(Step64, hash, buf)
  }

  /** A step from which the state before it, or the byte, can be told. */
  ghost predicate Injective<H(!new)>(step: (H, Byte) -> H) {
    && (forall x, y, c :: step(x, c) == step(y, c) ==> x == y)
    && (forall x, c, d :: step(x, c) == step(x, d) ==> c == d)
  }

  /** Different start values stay different. */
  lemma {:induction false} StartsStayApart<H(!new)>(step: (H, Byte) -> H, h: H, g: H, buf: seq<Byte>)
    requires Injective(step)
    ensures Fold(step, h, buf) == Fold(step, g, buf) <==> h == g
    decreases |buf|
  {
    if buf != [] {
      StartsStayApart(step, step(h, buf[0]), step(g, buf[0]), buf[1..]);
    }
  }

  /** A buffer can be hashed piece by piece, handing each result on as the next start value. */
  lemma {:induction false} FoldConcat<H>(step: (H, Byte) -> H, h: H, a: seq<Byte>, b: seq<Byte>)
    ensures Fold(step, h, a + b) == Fold(step, Fold(step, h, a), b)
    decreases |a|
  {
    if a == [] {
      assert a + b == b;
    } else {
      assert (a + b)[0] == a[0] && (a + b)[1..] == a[1..] + b;
      FoldConcat(step, step(h, a[0]), a[1..], b);
    }
  }

  /** Two buffers of equal length that differ in exactly one byte never collide. */
  lemma OneByteShows<H(!new)>(step: (H, Byte) -> H, h: H, a: seq<Byte>, k: nat, c: Byte)
    requires Injective(step) && k < |a| && a[k] != c
    ensures Fold(step, h, a) != Fold(step, h, a[k := c])
  {
    var b := a[k := c];
    assert a == a[..k] + ([a[k]] + a[k + 1..]) && b == a[..k] + ([c] + a[k + 1..]);
    FoldConcat(step, h, a[..k], [a[k]] + a[k + 1..]);
    FoldConcat(step, h, a[..k], [c] + a[k + 1..]);
    var g := Fold(step, h, a[..k]);
    assert ([a[k]] + a[k + 1..])[1..] == a[k + 1..] && ([c] + a[k + 1..])[1..] == a[k + 1..];
    StartsStayApart(step, step(g, a[k]), step(g, c), a[k + 1..]);
  }

  lemma StepsAreInjective()
    ensures Injective(Step32) && Injective(Step64)
  {
    hide Step32, Step64, Back32, Back64;
    forall x: U32, y: U32, c: Byte | Step32(x, c) == Step32(y, c) ensures x == y {
      StepBijective32(x, c);
      StepBijective32(y, c);
    }
    forall x: U64, y: U64, c: Byte | Step64(x, c) == Step64(y, c) ensures x == y {
      StepBijective64(x, c);
      StepBijective64(y, c);
    }
    forall x: U32, c: Byte, d: Byte | Step32(x, c) == Step32(x, d) ensures c == d {
      ByteShows32(x, c, d);
    }
    forall x: U64, c: Byte, d: Byte | Step64(x, c) == Step64(x, d) ensures c == d {
      ByteShows64(x, c, d);
    }
  }

  lemma ByteShows32(x: U32, c: Byte, d: Byte)
    ensures Step32(x, c) == Step32(x, d) <==> c == d
  {
    XorInjective(Shifts32(x), Extend32(c), Extend32(d));
    hide Xor, Shifts32;
  }

  lemma ByteShows64(x: U64, c: Byte, d: Byte)
    ensures Step64(x, c) == Step64(x, d) <==> c == d
  {
    XorInjective(Shifts64(x), Extend64(c), Extend64(d));
    hide Xor, Shifts64;
  }

  /** The four hash functions tell apart buffers of equal length that differ in exactly one byte. */
  lemma OneByteNeverCollides(h32: U32, h64: U64, a: seq<Byte>, k: nat, c: Byte)
    requires k < |a| && a[k] != c
    ensures Hash32(h32, a) != Hash32(h32, a[k := c])
    ensures Hash64(h64, a) != Hash64(h64, a[k := c])
  {
    StepsAreInjective();
    OneByteShows(Step32, h32, a, k, c);
    OneByteShows(Step64, h64, a, k, c);
  }

  predicate Ascii(buf: seq<Byte>) {
    forall i :: 0 <= i < |buf| ==> buf[i] < 0x80
  }

  /** On a buffer with at most one byte above 0x7f the result is the FNV-1 hash exactly when there is none. */
  lemma {:induction false} HashIsFnv1(h32: U32, h64: U64, buf: seq<Byte>)
    requires forall i, j :: 0 <= i < j < |buf| ==> buf[i] < 0x80 || buf[j] < 0x80
    ensures Hash32(h32, buf) == Fnv1(h32, buf, PRIME_32, M32) <==> Ascii(buf)
    ensures Hash64(h64, buf) == Fnv1(h64, buf, PRIME_64, M64) <==> Ascii(buf)
    decreases |buf|
  {
    hide Step32, Step64, Fnv1Step, Pow2;
    if buf != [] {
      var c, rest := buf[0], buf[1..];
      StepIsFnv1(h32, h64, c);
      Fnv1StepFits(h32, h64, c);
      var g32: U32, g64: U64 := Fnv1Step(h32, c, PRIME_32, M32), Fnv1Step(h64, c, PRIME_64, M64);
      assert Ascii(buf) <==> c < 0x80 && Ascii(rest);
      HashIsFnv1(g32, g64, rest);
      StepsAreInjective();
      StartsStayApart<U32>(Step32, Step32(h32, c), g32, rest);
      StartsStayApart<U64>(Step64, Step64(h64, c), g64, rest);
    }
  }

  lemma Fnv1StepFits(h32: U32, h64: U64, c: Byte)
    ensures Fnv1Step(h32, c, PRIME_32, M32) < M32 && Fnv1Step(h64, c, PRIME_64, M64) < M64
  {
    XorBelow32(h32 * PRIME_32 % M32, c);
    XorBelow64(h64 * PRIME_64 % M64, c);
  }

  // ---------------------------------------------------------------------------------------------
  // Two adjacent bytes above 0x7f

  /** a << k */
  function Shift(a: nat, k: nat): nat {
    if k == 0 then a else 2 * Shift(a, k - 1)
  }

  lemma HalfOf(x: nat, b: nat)
    ensures (2 * x + b) / 2 == x + b / 2 && (2 * x + b) % 2 == b % 2
  {
  }

  lemma XorBuild(x: nat, y: nat)
    ensures Xor(x, y) == 2 * Xor(x / 2, y / 2) + if x % 2 == y % 2 then 0 else 1
  {
    XorHalves(x, y);
    hide Xor;
  }

  lemma LowBits(x: nat, b: nat, y: nat, d: nat)
    ensures Xor(2 * x + b, 2 * y + d) - 2 * Xor(x + b / 2, y + d / 2) == Xor(b, d) - 2 * Xor(b / 2, d / 2)
  {
    hide Xor;
    HalfOf(x, b);
    HalfOf(y, d);
    XorBuild(2 * x + b, 2 * y + d);
    XorBuild(b, d);
  }

  /** Exclusive or works on the high and the low bits separately. */
  lemma {:induction false} XorShift(a: nat, b: nat, c: nat, d: nat, k: nat)
    requires b < Pow2(k) && d < Pow2(k)
    ensures Xor(Shift(a, k) + b, Shift(c, k) + d) == Shift(Xor(a, c), k) + Xor(b, d)
    decreases k
  {
    hide Xor;
    if k > 0 {
      XorShift(a, b / 2, c, d / 2, k - 1);
      hide Pow2;
      LowBits(Shift(a, k - 1), b, Shift(c, k - 1), d);
    } else {
      XorZero(0);
    }
  }

  lemma Bytes(a: nat, b: Byte, c: nat, d: Byte)
    ensures Xor(256 * a + b, 256 * c + d) == 256 * Xor(a, c) + Xor(b, d) && Xor(b, d) < 256
  {
    hide Xor, Pow2, Shift;
    Powers();
    XorShift(a, b, c, d, 8);
    XorBelow(b, d, 8);
    ShiftEight(a);
    ShiftEight(c);
    ShiftEight(Xor(a, c));
  }

  lemma ShiftEight(x: nat)
    ensures Shift(x, 8) == 256 * x
  {
    assert Shift(x, 1) == 2 * x;
    assert Shift(x, 2) == 4 * x;
    assert Shift(x, 4) == 16 * x;
    assert Shift(x, 6) == 64 * x;
  }

  lemma {:induction false} XorOnes(a: nat, k: nat)
    requires a < Pow2(k)
    ensures Xor(a, Pow2(k) - 1) == Pow2(k) - 1 - a
    decreases k
  {
    hide Xor;
    if k == 0 {
      XorZero(0);
    } else {
      XorOnes(a / 2, k - 1);
      HalfOf(Pow2(k - 1) - 1, 1);
      XorBuild(a, Pow2(k) - 1);
    }
  }

  lemma {:induction false} XorZero(a: nat)
    ensures Xor(a, 0) == a
    decreases a
  {
    if a > 0 {
      XorZero(a / 2);
    }
  }

  /** The two states after a byte above 0x7f: the code's, with the high bits of its own step flipped, and the
      one of FNV-1. */
  lemma Twins(x: nat, c: Byte, k: nat)
    requires x < 256 * Pow2(k)
    ensures var g, h := Xor(x, c), Xor(x, c + 256 * (Pow2(k) - 1));
            && g % 256 == h % 256 == Xor(x % 256, c) < 256
            && g / 256 == x / 256 && h / 256 == Pow2(k) - 1 - x / 256
  {
    hide Xor, Pow2;
    var hi, lo, ones := x / 256, x % 256, Pow2(k) - 1;
    assert x == 256 * hi + lo && 0 <= hi <= ones;
    Bytes(hi, lo, 0, c);
    Bytes(hi, lo, ones, c);
    XorZero(hi);
    XorOnes(hi, k);
    HighOf(Xor(x, c), hi, Xor(lo, c));
    HighOf(Xor(x, c + 256 * ones), ones - hi, Xor(lo, c));
  }

  const N32: int := 0x100_0000
  const N64: int := 0x100_0000_0000_0000

  lemma Masks()
    ensures Pow2(24) == N32 && Pow2(56) == N64
  {
    Powers();
    PowersAdd(24, 32);
    hide Pow2;
  }

  /** A byte above 0x7f leaves the low byte of FNV-1 and inverts all the bits above it. */
  lemma HighByteInverts(h32: U32, h64: U64, c: Byte)
    requires 0x80 <= c
    ensures var h, g := Step32(h32, c), Fnv1Step(h32, c, PRIME_32, M32);
            h % 256 == g % 256 && h / 256 + g / 256 == N32 - 1
    ensures var h, g := Step64(h64, c), Fnv1Step(h64, c, PRIME_64, M64);
            h % 256 == g % 256 && h / 256 + g / 256 == N64 - 1
  {
    hide Xor, Pow2, Shifts32, Shifts64;
    Masks();
    ShiftsMultiply32(h32);
    ShiftsMultiply64(h64);
    Twins(h32 * PRIME_32 % M32, c, 24);
    Twins(h64 * PRIME_64 % M64, c, 56);
  }

  /** Low byte 0x80 is the only one whose product carries just what flips the high bits. */
  lemma OnlyEighty(z: Byte)
    ensures (2 * (z * PRIME_32 / 256) - (PRIME_32 - 1)) % N32 == 0 <==> z == 0x80
    ensures (2 * (z * PRIME_64 / 256) - (PRIME_64 - 1)) % N64 == 0 <==> z == 0x80
  {
    var e32, e64 := z * 403 / 256, z * 435 / 256;
    assert z * PRIME_32 / 256 == z * 0x1_0000 + e32 && 0 <= 2 * e32 < 0x2_0000;
    assert z * PRIME_64 / 256 == z * 0x1_0000_0000 + e64 && 0 <= 2 * e64 < 0x2_0000;
    Carry32(z, e32);
    Carry64(z, e64);
  }

  lemma Carry32(z: Byte, e: nat)
    requires e == z * 403 / 256
    ensures (z * 0x2_0000 + 2 * e - 0x100_0192) % N32 == 0 <==> z == 0x80
  {
    var v := z * 0x2_0000 + 2 * e - 0x100_0192;
    if v % N32 == 0 {
      var q := v / N32;
      assert v == q * N32;
      assert -2 <= q <= 1;
    }
  }

  lemma Carry64(z: Byte, e: nat)
    requires e == z * 435 / 256
    ensures (z * 0x2_0000_0000 + 2 * e - 0x100_0000_01b2) % N64 == 0 <==> z == 0x80
  {
    var v := z * 0x2_0000_0000 + 2 * e - 0x100_0000_01b2;
    assert 0 - N64 < v < N64;
  }

  lemma HighOf(y: int, a: int, b: int)
    requires y == 256 * a + b && 0 <= b < 256
    ensures y / 256 == a && y % 256 == b
  {
  }

  lemma ProductParts32(h: U32) returns (k: int)
    ensures var y, z := h * PRIME_32 % M32, h % 256;
            y / 256 == h / 256 * PRIME_32 - k * N32 + z * PRIME_32 / 256 && y % 256 == z * PRIME_32 % 256
  {
    k := h * PRIME_32 / M32;
    var z, H := h % 256, h / 256;
    var q, m := z * PRIME_32 / 256, z * PRIME_32 % 256;
    Split32(h, H, z, k, q, m);
    HighOf(h * PRIME_32 - k * M32, H * PRIME_32 - k * N32 + q, m);
  }

  lemma Split32(h: int, H: int, z: int, k: int, q: int, m: int)
    requires h == 256 * H + z && z * PRIME_32 == 256 * q + m
    ensures h * PRIME_32 - k * M32 == 256 * (H * PRIME_32 - k * N32 + q) + m
  {
  }

  /** States with equal low bytes z and opposite high bits go to such states again exactly when z is 0x80. */
  lemma TwinsProduct32(h: U32, g: U32)
    requires h % 256 == g % 256 && h / 256 + g / 256 == N32 - 1
    ensures var y, x := h * PRIME_32 % M32, g * PRIME_32 % M32;
            y % 256 == x % 256 && (y / 256 + x / 256 == N32 - 1 <==> h % 256 == 0x80)
  {
    var kh := ProductParts32(h);
    var kg := ProductParts32(g);
    OnlyEighty(h % 256);
    var y, x := h * PRIME_32 % M32, g * PRIME_32 % M32;
    High32(y);
    High32(x);
    Opposite32(y / 256 + x / 256, 2 * (h % 256 * PRIME_32 / 256) - (PRIME_32 - 1), PRIME_32 - 1 - kh - kg);
  }

  lemma High32(y: U32)
    ensures 0 <= y / 256 <= N32 - 1
  {
  }

  lemma Opposite32(sum: int, d: int, k: int)
    requires sum == N32 - 1 + d + k * N32 && 0 <= sum <= 2 * N32 - 2
    ensures sum == N32 - 1 <==> d % N32 == 0
  {
  }

  lemma Opposite64(sum: int, d: int, k: int)
    requires sum == N64 - 1 + d + k * N64 && 0 <= sum <= 2 * N64 - 2
    ensures sum == N64 - 1 <==> d % N64 == 0
  {
  }

  lemma ProductParts64(h: U64) returns (k: int)
    ensures var y, z := h * PRIME_64 % M64, h % 256;
            y / 256 == h / 256 * PRIME_64 - k * N64 + z * PRIME_64 / 256 && y % 256 == z * PRIME_64 % 256
  {
    k := h * PRIME_64 / M64;
    var z, H := h % 256, h / 256;
    var q, m := z * PRIME_64 / 256, z * PRIME_64 % 256;
    Split64(h, H, z, k, q, m);
    HighOf(h * PRIME_64 - k * M64, H * PRIME_64 - k * N64 + q, m);
  }

  lemma Split64(h: int, H: int, z: int, k: int, q: int, m: int)
    requires h == 256 * H + z && z * PRIME_64 == 256 * q + m
    ensures h * PRIME_64 - k * M64 == 256 * (H * PRIME_64 - k * N64 + q) + m
  {
  }

  lemma TwinsProduct64(h: U64, g: U64)
    requires h % 256 == g % 256 && h / 256 + g / 256 == N64 - 1
    ensures var y, x := h * PRIME_64 % M64, g * PRIME_64 % M64;
            y % 256 == x % 256 && (y / 256 + x / 256 == N64 - 1 <==> h % 256 == 0x80)
  {
    var kh := ProductParts64(h);
    var kg := ProductParts64(g);
    OnlyEighty(h % 256);
    var y, x := h * PRIME_64 % M64, g * PRIME_64 % M64;
    High64(y);
    High64(x);
    Opposite64(y / 256 + x / 256, 2 * (h % 256 * PRIME_64 / 256) - (PRIME_64 - 1), PRIME_64 - 1 - kh - kg);
  }

  lemma High64(y: U64)
    ensures 0 <= y / 256 <= N64 - 1
  {
  }

  /** Two bytes above 0x7f in a row, from a common state: the code and FNV-1 part at the first and meet again
      at the second exactly when the code's state between them ends in 0x80. */
  lemma PairMeets32(h: U32, c: Byte, d: Byte)
    requires 0x80 <= c && 0x80 <= d
    ensures Step32(Step32(h, c), d) == Fnv1Step(Fnv1Step(h, c, PRIME_32, M32), d, PRIME_32, M32)
            <==> Step32(h, c) % 256 == 0x80
  {
    hide Xor, Pow2, Shifts32;
    Masks();
    ShiftsMultiply32(h);
    var x := h * PRIME_32 % M32;
    Twins(x, c, 24);
    Fnv1StepFits(h, 0, c);
    var h1, g1 := Step32(h, c), Fnv1Step(h, c, PRIME_32, M32);
    assert h1 == Xor(x, c + 256 * (N32 - 1)) && g1 == Xor(x, c);
    TwinsProduct32(h1, g1);
    ShiftsMultiply32(h1);
    Twins(h1 * PRIME_32 % M32, d, 24);
    Twins(g1 * PRIME_32 % M32, d, 24);
  }

  lemma PairMeets64(h: U64, c: Byte, d: Byte)
    requires 0x80 <= c && 0x80 <= d
    ensures Step64(Step64(h, c), d) == Fnv1Step(Fnv1Step(h, c, PRIME_64, M64), d, PRIME_64, M64)
            <==> Step64(h, c) % 256 == 0x80
  {
    hide Xor, Pow2, Shifts64;
    Masks();
    ShiftsMultiply64(h);
    var x := h * PRIME_64 % M64;
    Twins(x, c, 56);
    Fnv1StepFits(0, h, c);
    var h1, g1 := Step64(h, c), Fnv1Step(h, c, PRIME_64, M64);
    assert h1 == Xor(x, c + 256 * (N64 - 1)) && g1 == Xor(x, c);
    TwinsProduct64(h1, g1);
    ShiftsMultiply64(h1);
    Twins(h1 * PRIME_64 % M64, d, 56);
    Twins(g1 * PRIME_64 % M64, d, 56);
  }

  lemma {:induction false} Fnv1Concat(h: nat, a: seq<Byte>, b: seq<Byte>, prime: nat, m: nat)
    requires m != 0
    ensures Fnv1(h, a + b, prime, m) == Fnv1(Fnv1(h, a, prime, m), b, prime, m)
    decreases |a|
  {
    hide Fnv1Step;
    if a == [] {
      assert a + b == b;
    } else {
      assert (a + b)[0] == a[0] && (a + b)[1..] == a[1..] + b;
      Fnv1Concat(Fnv1Step(h, a[0], prime, m), a[1..], b, prime, m);
    }
  }

  /** On a buffer whose only bytes above 0x7f are two in a row, the result is the FNV-1 hash exactly when the
      hash of what precedes the second of them ends in 0x80. */
  lemma PairIsFnv1(h32: U32, h64: U64, a: seq<Byte>, c: Byte, d: Byte, b: seq<Byte>)
    requires Ascii(a) && Ascii(b) && 0x80 <= c && 0x80 <= d
    ensures var buf := a + ([c, d] + b);
            && (Hash32(h32, buf) == Fnv1(h32, buf, PRIME_32, M32) <==> Hash32(h32, a + [c]) % 256 == 0x80)
            && (Hash64(h64, buf) == Fnv1(h64, buf, PRIME_64, M64) <==> Hash64(h64, a + [c]) % 256 == 0x80)
  {
    hide Step32, Step64, Fnv1Step, Pow2;
    var k32, k64 := Hash32(h32, a), Hash64(h64, a);
    HashIsFnv1(h32, h64, a);
    FoldConcat(Step32, h32, a, [c, d] + b);
    FoldConcat(Step64, h64, a, [c, d] + b);
    FoldConcat(Step32, h32, a, [c]);
    FoldConcat(Step64, h64, a, [c]);
    Fnv1Concat(h32, a, [c, d] + b, PRIME_32, M32);
    Fnv1Concat(h64, a, [c, d] + b, PRIME_64, M64);
    PairThen(k32, k64, c, d, b);
    assert [c][1..] == [];
  }

  lemma PairThen(h32: U32, h64: U64, c: Byte, d: Byte, b: seq<Byte>)
    requires Ascii(b) && 0x80 <= c && 0x80 <= d
    ensures Hash32(h32, [c, d] + b) == Fnv1(h32, [c, d] + b, PRIME_32, M32) <==> Step32(h32, c) % 256 == 0x80
    ensures Hash64(h64, [c, d] + b) == Fnv1(h64, [c, d] + b, PRIME_64, M64) <==> Step64(h64, c) % 256 == 0x80
  {
    hide Step32, Step64, Fnv1Step, Pow2;
    PairMeets32(h32, c, d);
    PairMeets64(h64, c, d);
    Fnv1StepFits(h32, h64, c);
    var i32: U32, i64: U64 := Fnv1Step(h32, c, PRIME_32, M32), Fnv1Step(h64, c, PRIME_64, M64);
    Fnv1StepFits(i32, i64, d);
    var g32: U32, g64: U64 := Fnv1Step(i32, d, PRIME_32, M32), Fnv1Step(i64, d, PRIME_64, M64);
    HashIsFnv1(g32, g64, b);
    StepsAreInjective();
    StartsStayApart<U32>(Step32, Step32(Step32(h32, c), d), g32, b);
    StartsStayApart<U64>(Step64, Step64(Step64(h64, c), d), g64, b);
    var buf := [c, d] + b;
    assert buf[0] == c && buf[1..] == [d] + b && ([d] + b)[0] == d && ([d] + b)[1..] == b;
    assert Hash32(h32, buf) == Fold(Step32, Step32(h32, c), [d] + b) == Hash32(Step32(Step32(h32, c), d), b);
    assert Hash64(h64, buf) == Fold(Step64, Step64(h64, c), [d] + b) == Hash64(Step64(Step64(h64, c), d), b);
    assert Fnv1(h32, buf, PRIME_32, M32) == Fnv1(i32, [d] + b, PRIME_32, M32) == Fnv1(g32, b, PRIME_32, M32);
    assert Fnv1(h64, buf, PRIME_64, M64) == Fnv1(i64, [d] + b, PRIME_64, M64) == Fnv1(g64, b, PRIME_64, M64);
  }

  /** The published FNV-1 values of the one-byte text "a", from the documented start values; and two bytes above
      0x7f from there, on which the 32-bit code agrees with FNV-1 again. */
  lemma FromTheStart(d: Byte)
    requires 0x80 <= d
    ensures Hash32(FNV_32_HASH_START, [0x61]) == 0x050c_5d7e
    ensures Hash64(FNV_64_HASH_START, [0x61]) == 0xaf63_bd4c_8601_b7be
    ensures Hash32(FNV_32_HASH_START, [0x9f, d]) == Fnv1(FNV_32_HASH_START, [0x9f, d], PRIME_32, M32)
  {
    hide Xor, Pow2, Shifts32, Shifts64;
    StartSteps();
    assert [0x61][1..] == [];
    PairIsFnv1(FNV_32_HASH_START, 0, [], 0x9f, d, []);
    assert [] + ([0x9f, d] + []) == [0x9f, d] && [] + [0x9f] == [0x9f] && [0x9f][1..] == [];
  }

  lemma StartProducts()
    ensures Shifts32(FNV_32_HASH_START) == 0x050c_5d1f
    ensures Shifts64(FNV_64_HASH_START) == 0xaf63_bd4c_8601_b7df
  {
    ShiftsMultiply32(FNV_32_HASH_START);
    ShiftsMultiply64(FNV_64_HASH_START);
    hide Shifts32, Shifts64;
  }

  lemma StartSteps()
    ensures Step32(FNV_32_HASH_START, 0x61) == 0x050c_5d7e
    ensures Step64(FNV_64_HASH_START, 0x61) == 0xaf63_bd4c_8601_b7be
    ensures Step32(FNV_32_HASH_START, 0x9f) % 256 == 0x80
  {
    hide Xor, Pow2, Shifts32, Shifts64;
    StartProducts();
    LowXors();
    Bytes(0x05_0c5d, 0x1f, 0, 0x61);
    Bytes(0xaf_63bd_4c86_01b7, 0xdf, 0, 0x61);
    XorZero(0x05_0c5d);
    XorZero(0xaf_63bd_4c86_01b7);
    Bytes(0x05_0c5d, 0x1f, 0xff_ffff, 0x9f);
    HighOf(Xor(0x050c_5d1f, Extend32(0x9f)), Xor(0x05_0c5d, 0xff_ffff), 0x80);
  }

  lemma LowXors()
    ensures Xor(0x1f, 0x61) == 0x7e && Xor(0xdf, 0x61) == 0xbe && Xor(0x1f, 0x9f) == 0x80
  {
    assert Xor(0, 0) == 0;
    hide Xor;
    XorBuild(0x0, 0x1);
    XorBuild(0x0, 0x3);
    XorBuild(0x1, 0x6);
    XorBuild(0x3, 0xc);
    XorBuild(0x7, 0x18);
    XorBuild(0xf, 0x30);
    XorBuild(0x1f, 0x61);
    XorBuild(0x1, 0x0);
    XorBuild(0x3, 0x1);
    XorBuild(0x6, 0x3);
    XorBuild(0xd, 0x6);
    XorBuild(0x1b, 0xc);
    XorBuild(0x37, 0x18);
    XorBuild(0x6f, 0x30);
    XorBuild(0xdf, 0x61);
    XorBuild(0x0, 0x1);
    XorBuild(0x0, 0x2);
    XorBuild(0x0, 0x4);
    XorBuild(0x1, 0x9);
    XorBuild(0x3, 0x13);
    XorBuild(0x7, 0x27);
    XorBuild(0xf, 0x4f);
    XorBuild(0x1f, 0x9f);
  }

  // ---------------------------------------------------------------------------------------------
  // The loops

  /** The text before the terminating zero: whatever bytes come before the first zero. */
  function Text(s: seq<Byte>): (t: seq<Byte>)
    requires 0 in s
    ensures |t| < |s| && s[|t|] == 0 && t == s[..|t|] && 0 !in t
  {
    if s[0] == 0 then [] else [s[0]] + Text(s[1..])
  }

  method Fnv32(s: seq<Byte>, start: U32) returns (hash: U32)
    requires 0 in s
    ensures hash == Hash32(start, Text(s))
  {
    hash := start;
    var i := 0;
    while s[i] != 0
      invariant i < |s| && 0 in s[i..]
      invariant Hash32(hash, Text(s[i..])) == Hash32(start, Text(s))
      decreases |s| - i
    {
      assert s[i..][0] == s[i] && s[i..][1..] == s[i + 1..];
      hash := Step32(hash, s[i]);
      i := i + 1;
    }
  }

  method Fnv64(s: seq<Byte>, start: U64) returns (hash: U64)
    requires 0 in s
    ensures hash == Hash64(start, Text(s))
  {
    hash := start;
    var i := 0;
    while s[i] != 0
      invariant i < |s| && 0 in s[i..]
      invariant Hash64(hash, Text(s[i..])) == Hash64(start, Text(s))
      decreases |s| - i
    {
      assert s[i..][0] == s[i] && s[i..][1..] == s[i + 1..];
      hash := Step64(hash, s[i]);
      i := i + 1;
    }
  }

  method Fnv32Buf(buf: seq<Byte>, n: int, start: U32) returns (hash: U32)
    requires n <= |buf|
    ensures hash == Hash32(start, buf[..if n < 0 then 0 else n])
  {
    hash := start;
    ghost var all := buf[..if n < 0 then 0 else n];
    var i := 0;
    while i < n
      invariant i <= |all| && Hash32(hash, all[i..]) == Hash32(start, all)
    {
      assert all[i..][0] == buf[i] && all[i..][1..] == all[i + 1..];
      hash := Step32(hash, buf[i]);
      i := i + 1;
    }
  }

  method Fnv64Buf(buf: seq<Byte>, n: int, start: U64) returns (hash: U64)
    requires n <= |buf|
    ensures hash == Hash64(start, buf[..if n < 0 then 0 else n])
  {
    hash := start;
    ghost var all := buf[..if n < 0 then 0 else n];
    var i := 0;
    while i < n
      invariant i <= |all| && Hash64(hash, all[i..]) == Hash64(start, all)
    {
      assert all[i..][0] == buf[i] && all[i..][1..] == all[i + 1..];
      hash := Step64(hash, buf[i]);
      i := i + 1;
    }
  }
}
