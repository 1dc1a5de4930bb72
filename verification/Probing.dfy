/** The probe sequence of container/circle_cache.h: triangular offsets over a power-of-two table. */
module Probing {

  predicate IsPow2(p: nat)
    decreases p
  {
    p == 1 || (p > 1 && p % 2 == 0 && IsPow2(p / 2))
  }

  /** 0.5 * i + 0.5 * i * i, exactly. */
  function Tri(i: nat): nat {
    i * (i + 1) / 2
  }

  /** quadratic_probing: masking with size - 1 is the remainder by size, a power of two. */
  function Probe(size: nat, key: nat, i: nat): (b: nat)
    requires 0 < size
    ensures b < size
  {
    (key % size + Tri(i)) % size
  }

  lemma MulAssoc(a: int, b: int, c: int)
    ensures (a * b) * c == a * (b * c)
  {
  }

  lemma MulAdd(a: int, b: int, c: int)
    ensures a * (b + c) == a * b + a * c
  {
  }

  lemma MulLess(p: nat, a: int, b: int)
    requires 0 < p && a < b
    ensures p * a < p * b
  {
  }

  lemma EvenSum(x: int, y: int, z: int)
    requires x % 2 == 0 && z == x + 2 * y
    ensures z % 2 == 0
  {
  }

  lemma {:induction false} ProductIsEven(i: nat)
    ensures i * (i + 1) % 2 == 0
  {
    if i > 0 {
      ProductIsEven(i - 1);
      MulAdd(i, i - 1, 2);
      EvenSum((i - 1) * (i - 1 + 1), i, i * (i + 1));
    }
  }

  lemma TwiceTri(i: nat)
    ensures 2 * Tri(i) == i * (i + 1)
  {
    ProductIsEven(i);
  }

  lemma TriDifference(i: nat, d: nat)
    ensures 2 * (Tri(i + d) - Tri(i)) == d * (2 * i + d + 1)
    ensures Tri(i) <= Tri(i + d)
  {
    TwiceTri(i);
    TwiceTri(i + d);
    MulAdd(i + d + 1, i, d);
    MulAdd(i, i + 1, d);
    MulAdd(d, i + d + 1, i);
  }

  /** An odd factor does not help a power of two divide a product. */
  lemma {:induction false} OddCancel(a: nat, b: nat, p: nat, t: nat) returns (k: nat)
    requires IsPow2(p) && a % 2 == 1 && a * b == p * t
    ensures b == p * k
    decreases p
  {
    if p == 1 {
      k := b;
    } else {
      var q, h := p / 2, a / 2;
      assert a * b == 2 * (q * t);
      assert a * b == 2 * (h * b) + b;
      assert b == 2 * (q * t - h * b);
      var b' := q * t - h * b;
      assert b == 2 * b' && 0 <= b';
      assert a * (2 * b') == 2 * (a * b');
      assert a * b' == q * t;
      k := OddCancel(a, b', q, t);
      assert b == 2 * (q * k) == p * k;
    }
  }

  lemma EqualRemainders(x: nat, y: nat, size: nat) returns (t: nat)
    requires 0 < size && x <= y && x % size == y % size
    ensures y - x == size * t
  {
    var a, b := x / size, y / size;
    assert x == size * a + x % size && y == size * b + y % size;
    if b < a {
      MulLess(size, b, a);
    }
    t := b - a;
    MulAdd(size, a, t);
  }

  lemma NoSmallMultiple(x: nat, p: nat, k: nat)
    requires x < p && x == p * k
    ensures x == 0
  {
    if k >= 1 {
      MulLess(p, 0, k);
      MulAdd(p, 1, k - 1);
    }
  }

  lemma DoublePow2(size: nat)
    requires IsPow2(size)
    ensures IsPow2(2 * size)
  {
  }

  lemma OneIsOdd(i: nat, d: nat)
    ensures d % 2 == 1 || (2 * i + d + 1) % 2 == 1
  {
  }

  /** Two offsets that differ by a multiple of the table size cannot come from one pass. */
  lemma NoCommonMultiple(size: nat, i: nat, d: nat, t: nat)
    requires IsPow2(size) && 0 < d && i + d < size
    ensures d * (2 * i + d + 1) != 2 * (size * t)
  {
    var e := 2 * i + d + 1;
    MulAssoc(2, size, t);
    DoublePow2(size);
    hide IsPow2;
    if d * e == 2 * (size * t) {
      OneIsOdd(i, d);
      if d % 2 == 1 {
        var k := OddCancel(d, e, 2 * size, t);
        NoSmallMultiple(e, 2 * size, k);
      } else {
        var k := OddCancel(e, d, 2 * size, t);
        NoSmallMultiple(d, 2 * size, k);
      }
    }
  }

  /** Two probes within one pass over the table never meet. */
  lemma ProbeInjective(size: nat, key: nat, i: nat, j: nat)
    requires IsPow2(size) && i < j < size
    ensures Probe(size, key, i) != Probe(size, key, j)
  {
    hide Tri, IsPow2;
    if Probe(size, key, i) == Probe(size, key, j) {
      TriDifference(i, j - i);
      var t := EqualRemainders(key % size + Tri(i), key % size + Tri(j), size);
      NoCommonMultiple(size, i, j - i, t);
    }
  }

  /** The probe sequences of a table, by key and probe number. */
  function Probes(size: nat): (nat, nat) -> nat {
    (key: nat, i: nat) => if size == 0 then 0 else Probe(size, key, i)
  }

  /** Probing stays inside the table and never meets a bucket twice in one pass. */
  ghost predicate OnePass(probe: (nat, nat) -> nat, size: nat) {
    && (forall key, i :: probe(key, i) < size)
    && (forall key, i, j :: 0 <= i < j < size ==> probe(key, i) != probe(key, j))
  }

  lemma TriangularIsOnePass(size: nat)
    requires IsPow2(size)
    ensures OnePass(Probes(size), size)
  {
    forall key: nat, i: nat, j: nat | i < j < size ensures Probes(size)(key, i) != Probes(size)(key, j) {
      ProbeInjective(size, key, i, j);
    }
  }

  /** The buckets of the first n probes. */
  ghost function ProbeSet(probe: (nat, nat) -> nat, key: nat, n: nat): set<nat> {
    if n == 0 then {} else ProbeSet(probe, key, n - 1) + {probe(key, n - 1)}
  }

  lemma {:induction false} ProbeSetHas(probe: (nat, nat) -> nat, key: nat, n: nat, b: nat)
    ensures b in ProbeSet(probe, key, n) <==> exists i :: 0 <= i < n && probe(key, i) == b
  {
    if n > 0 {
      ProbeSetHas(probe, key, n - 1, b);
      if b in ProbeSet(probe, key, n) && b == probe(key, n - 1) {
        assert 0 <= n - 1 < n;
      }
    }
  }

  lemma {:induction false} ProbeSetSize(probe: (nat, nat) -> nat, size: nat, key: nat, n: nat)
    requires OnePass(probe, size) && n <= size
    ensures |ProbeSet(probe, key, n)| == n
    ensures forall b :: b in ProbeSet(probe, key, n) ==> b < size
  {
    if n > 0 {
      ProbeSetSize(probe, size, key, n - 1);
      ProbeSetHas(probe, key, n - 1, probe(key, n - 1));
    }
  }

  lemma {:induction false} SubsetSize(a: set<nat>, b: set<nat>)
    requires a <= b
    ensures |a| <= |b| && (|a| == |b| ==> a == b)
    decreases |a|
  {
    if a != {} {
      var x :| x in a;
      SubsetSize(a - {x}, b - {x});
      assert a == (a - {x}) + {x} && b == (b - {x}) + {x};
    } else if |b| == 0 {
      assert b == {};
    }
  }

  ghost function Below(n: nat): set<nat> {
    if n == 0 then {} else Below(n - 1) + {n - 1}
  }

  lemma {:induction false} BelowLaws(n: nat)
    ensures |Below(n)| == n
    ensures forall i: nat :: i in Below(n) <==> i < n
  {
    if n > 0 {
      BelowLaws(n - 1);
    }
  }

  /** Probe i of a pass is the one that visits bucket b. */
  ghost predicate OnlyProbe(probe: (nat, nat) -> nat, size: nat, key: nat, b: nat, i: nat) {
    && probe(key, i) == b
    && forall j :: 0 <= j < size && j != i ==> probe(key, j) != b
  }

  /** One pass of triangular probing visits every bucket, each at exactly one probe. */
  lemma ProbeVisitsEachOnce(size: nat, key: nat, b: nat)
    requires IsPow2(size) && b < size
    ensures exists i :: 0 <= i < size && OnlyProbe(Probes(size), size, key, b, i)
  {
    TriangularIsOnePass(size);
    var probe := Probes(size);
    hide Probes, IsPow2;
    ProbeSetSize(probe, size, key, size);
    BelowLaws(size);
    SubsetSize(ProbeSet(probe, key, size), Below(size));
    ProbeSetHas(probe, key, size, b);
    var i :| 0 <= i < size && probe(key, i) == b;
    forall j | 0 <= j < size && j != i ensures probe(key, j) != b {
      assert if i < j then probe(key, i) != probe(key, j) else probe(key, j) != probe(key, i);
    }
    assert OnlyProbe(probe, size, key, b, i);
  }

  lemma RemainderIs(x: nat, size: nat, q: nat, r: nat)
    requires 0 < size && x == size * q + r && r < size
    ensures x % size == r
  {
    var q', r' := x / size, x % size;
    assert x == size * q' + r';
    if q < q' {
      MulLess(size, q, q');
      MulAdd(size, q, q' - q);
      MulAdd(size, 1, q' - q - 1);
    } else if q' < q {
      MulLess(size, q', q);
      MulAdd(size, q', q - q');
      MulAdd(size, 1, q - q' - 1);
    }
  }

  lemma Parts(x: nat, size: nat)
    requires 0 < size
    ensures x == size * (x / size) + x % size && 0 <= x % size < size && 0 <= x / size
  {
  }

  lemma SumParts(x: nat, d: nat, size: nat, q: nat, r: nat, q': nat, r': nat)
    requires x == size * q + r && r + d == size * q' + r'
    ensures x + d == size * (q + q') + r'
  {
    MulAdd(size, q, q');
  }

  lemma AddRemainder(x: nat, d: nat, size: nat)
    requires 0 < size
    ensures (x % size + d) % size == (x + d) % size
  {
    var r := x % size;
    Parts(x, size);
    Parts(r + d, size);
    SumParts(x, d, size, x / size, r, (r + d) / size, (r + d) % size);
    RemainderIs(x + d, size, x / size + (r + d) / size, (r + d) % size);
  }

  lemma TriNext(i: nat)
    requires 0 < i
    ensures Tri(i) == Tri(i - 1) + i
  {
    TwiceTri(i);
    TwiceTri(i - 1);
    MulAdd(i, i - 1, 2);
  }

  /** The first probe is the key modulo the table size, and the i-th goes on from the one before by i. */
  lemma ProbeAdvances(size: nat, key: nat, i: nat)
    requires 0 < size
    ensures Probe(size, key, 0) == key % size
    ensures 0 < i ==> Probe(size, key, i) == (Probe(size, key, i - 1) + i) % size
  {
    AddRemainder(key, 0, size);
    if 0 < i {
      TriNext(i);
      AddRemainder(key % size + Tri(i - 1), i, size);
    }
  }
}
