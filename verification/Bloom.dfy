/** The bloom filter with enhanced double hashing (internal/sstable/bloom/bloom.go). Keys come as
    their 64-bit hashes. */
module Bloom {
  import opened Types
  import opened RowCodec
  import opened Blocks

  type Hash = h: nat | h < 0x1_0000_0000_0000_0000

  // ---- probes

  /** Probe i in closed form: h + i d + (i^3 - i) / 6 modulo the number of bits, where h and d are
      the lower and the upper half of the hash. */
  function ProbeAt(hash: Hash, i: nat, bits: nat): (p: nat)
    requires bits > 0
    ensures p < bits
  {
    (hash % TWO32 + i * (hash / TWO32) + (i * i * i - i) / 6) % bits
  }

  /** The first probe is the lower half of the hash, the second the upper half further on, and the third
      again, and one more. */
  lemma FirstProbes(hash: Hash, bits: nat)
    requires bits > 0
    ensures ProbeAt(hash, 0, bits) == hash % 0x1_0000_0000 % bits
    ensures ProbeAt(hash, 1, bits) == (hash % 0x1_0000_0000 + hash / 0x1_0000_0000) % bits
    ensures ProbeAt(hash, 2, bits) == (hash % 0x1_0000_0000 + 2 * (hash / 0x1_0000_0000) + 1) % bits
  {
  }

  /** 0 + 1 + ... + (i - 1), and the sum of the first i such sums shifted by one. */
  function Tri(i: nat): nat { if i == 0 then 0 else Tri(i - 1) + i - 1 }
  function Tet(i: nat): nat { if i == 0 then 0 else Tet(i - 1) + Tri(i) }

  lemma {:induction false} TriClosed(i: nat)
    ensures 2 * Tri(i) == i * i - i
  {
    if i > 0 {
      TriClosed(i - 1);
      assert (i - 1) * (i - 1) == i * i - 2 * i + 1;
    }
  }

  lemma {:induction false} TetClosed(i: nat)
    ensures 6 * Tet(i) == i * i * i - i
  {
    if i > 0 {
      TetClosed(i - 1);
      TriClosed(i);
      Cube(i);
    }
  }

  lemma Cube(i: int)
    ensures (i - 1) * (i - 1) * (i - 1) == i * i * i - 3 * (i * i) + 3 * i - 1
  {
    assert (i - 1) * (i - 1) == i * i - 2 * i + 1;
    assert (i * i - 2 * i + 1) * (i - 1) == (i * i) * (i - 1) - 2 * i * (i - 1) + (i - 1);
    assert (i * i) * (i - 1) == i * i * i - i * i;
  }

  lemma ModAdd(a: nat, b: nat, m: nat)
    requires m > 0
    ensures (a % m + b) % m == (a + b) % m
    ensures (b + a % m) % m == (b + a) % m
  {
    var q := a / m;
    assert a == q * m + a % m;
    ModShift(a % m + b, q, m);
  }

  lemma {:induction false} ModShift(x: nat, q: nat, m: nat)
    requires m > 0
    ensures (x + q * m) % m == x % m
    decreases q
  {
    if q > 0 {
      ModShift(x, q - 1, m);
      assert x + q * m == (x + (q - 1) * m) + m;
      ModStep(x + (q - 1) * m, m);
    }
  }

  lemma ModStep(x: nat, m: nat)
    requires m > 0
    ensures (x + m) % m == x % m
  {
    var q, r := x / m, x % m;
    assert x + m == (q + 1) * m + r;
    DivUnique(x + m, m, q + 1, r);
  }

  lemma DivUnique(x: nat, m: nat, q: nat, r: nat)
    requires m > 0 && r < m && x == q * m + r
    ensures x % m == r
  {
    var q', r' := x / m, x % m;
    assert q' * m + r' == x;
    if q' != q {
      var d := if q' > q then q' - q else q - q';
      Difference(q', q, m);
      AtLeast(d, m);
    }
  }

  lemma Difference(a: nat, b: nat, m: nat)
    ensures (a - b) * m == a * m - b * m && (b - a) * m == b * m - a * m
  {
  }

  lemma AtLeast(d: nat, m: nat)
    requires d >= 1
    ensures d * m >= m
  {
  }

  /** One round of the probe loop, on the unreduced sums. */
  lemma ProbeStep(low: nat, high: nat, i: nat, bits: nat, h: nat, delta: nat, delta': nat)
    requires bits > 0
    requires h == (low + i * high + Tet(i)) % bits && delta == (high + Tri(i)) % bits && delta' == (delta + i) % bits
    ensures delta' == (high + Tri(i + 1)) % bits
    ensures (h + delta') % bits == (low + (i + 1) * high + Tet(i + 1)) % bits
  {
    var a, b := low + i * high + Tet(i), high + Tri(i + 1);
    ModAdd(high + Tri(i), i, bits);
    ModAdd(a, delta', bits);
    ModAdd(b, a, bits);
    assert (i + 1) * high == i * high + high;
  }

  /** The step value and the position are reduced at every step, and no 64-bit sum overflows. */
  method ProbesForKey(hash: Hash, numProbes: nat, bits: nat) returns (probes: seq<nat>)
    requires 0 < bits < TWO32 && numProbes < 0x1_0000
    ensures |probes| == numProbes
    ensures forall i :: 0 <= i < numProbes ==> probes[i] == ProbeAt(hash, i, bits) < bits
  {
    probes := [];
    ghost var low, high := hash % TWO32, hash / TWO32;
    var h := hash % TWO32 % bits;
    var delta := hash / TWO32 % bits;
    for i := 0 to numProbes
      invariant |probes| == i
      invariant h == (low + i * high + Tet(i)) % bits
      invariant delta == (high + Tri(i)) % bits
      invariant forall j :: 0 <= j < i ==> probes[j] == ProbeAt(hash, j, bits) < bits
    {
      hide Tri, Tet;
      assert delta + i < TWO64 && h + bits < TWO64;
      ghost var before := delta;
      delta := (delta + i) % bits;
      TetClosed(i);
      assert ProbeAt(hash, i, bits) == h;
      probes := probes + [h];
      ProbeStep(low, high, i, bits, h, before, delta);
      h := (h + delta) % bits;
    }
  }

  // ---- bits

  /** 1 << n */
  function Mask(n: nat): bv8
    requires n < 8
  {
    if n == 0 then 1 else if n == 1 then 2 else if n == 2 then 4 else if n == 3 then 8
    else if n == 4 then 16 else if n == 5 then 32 else if n == 6 then 64 else 128
  }

  predicate CheckBit(bit: nat, buf: seq<bv8>)
    requires bit / 8 < |buf|
  {
    buf[bit / 8] & Mask(bit % 8) != 0
  }

  /** Bit n of the buffer is bit n % 8, counted from the lowest, of byte n / 8. */
  lemma CheckBitReads(bit: nat, buf: seq<bv8>)
    requires bit / 8 < |buf|
    ensures CheckBit(bit, buf) <==> (buf[bit / 8] >> (bit % 8)) & 1 == 1
  {
    ShiftReads(buf[bit / 8], bit % 8);
  }

  lemma ShiftReads(x: bv8, n: nat)
    requires n < 8
    ensures x & Mask(n) != 0 <==> (x >> n) & 1 == 1
  {
    if n == 0 {} else if n == 1 {} else if n == 2 {} else if n == 3 {} else if n == 4 {} else if n == 5 {}
    else if n == 6 {} else {}
  }

  /** Sets this bit and leaves all others as they are. */
  method SetBit(bit: nat, buf: array<bv8>)
    requires bit / 8 < buf.Length
    modifies buf
    ensures forall b: nat :: b / 8 < buf.Length ==> (CheckBit(b, buf[..]) <==> b == bit || CheckBit(b, old(buf[..])))
  {
    hide Mask;
    ghost var was := buf[..];
    buf[bit / 8] := buf[bit / 8] | Mask(bit % 8);
    forall b: nat | b / 8 < buf.Length ensures CheckBit(b, buf[..]) <==> b == bit || CheckBit(b, was) {
      if b / 8 == bit / 8 {
        assert b == bit <==> b % 8 == bit % 8;
        OrMask(was[b / 8], bit % 8, b % 8);
      } else {
        assert buf[..][b / 8] == was[b / 8];
      }
    }
  }

  lemma OrMask(x: bv8, m: nat, n: nat)
    requires m < 8 && n < 8
    ensures (x | Mask(m)) & Mask(n) != 0 <==> m == n || x & Mask(n) != 0
  {
    MasksDiffer(m, n);
    hide Mask;
    OrBits(x, Mask(m), Mask(n));
  }

  lemma MasksDiffer(m: nat, n: nat)
    requires m < 8 && n < 8
    ensures m == n ==> Mask(m) & Mask(n) == Mask(m) != 0
    ensures m != n ==> Mask(m) & Mask(n) == 0
  {
  }

  lemma OrDistributes(x: bv8, m: bv8, n: bv8)
    ensures (x | m) & n == (x & n) | (m & n)
  {
  }

  lemma OrZero(a: bv8, b: bv8)
    ensures b == 0 ==> a | b == a
    ensures b != 0 ==> a | b != 0
  {
  }

  lemma OrBits(x: bv8, m: bv8, n: bv8)
    ensures m & n == 0 ==> ((x | m) & n != 0 <==> x & n != 0)
    ensures m & n != 0 ==> (x | m) & n != 0
  {
    OrDistributes(x, m, n);
    OrZero(x & n, m & n);
  }

  // ---- building and testing

  datatype Filter = Filter(numProbes: nat, data: seq<bv8>)

  /** The first n probes of the hash are set. */
  ghost predicate ProbesSet(hash: Hash, n: nat, data: seq<bv8>)
    requires |data| > 0
  {
    forall i :: 0 <= i < n ==> CheckBit(ProbeAt(hash, i, |data| * 8), data)
  }

  ghost predicate HasHash(f: Filter, hash: Hash) {
    |f.data| > 0 && ProbesSet(hash, f.numProbes, f.data)
  }

  /** Some probe of one of the first k hashes is this bit. */
  ghost predicate Probed(bit: nat, hashes: seq<Hash>, k: nat, n: nat, bits: nat)
    requires bits > 0 && k <= |hashes|
  {
    exists j, i :: 0 <= j < k && 0 <= i < n && ProbeAt(hashes[j], i, bits) == bit
  }

  /** Whether all probes of the key are set; an empty filter has no key. */
  method HasKey(f: Filter, hash: Hash) returns (r: bool)
    requires f.numProbes < 0x1_0000 && |f.data| * 8 < TWO32
    ensures r <==> HasHash(f, hash)
    ensures |f.data| == 0 ==> !r
  {
    if |f.data| == 0 {
      return false;
    }
    var probes := ProbesForKey(hash, f.numProbes, |f.data| * 8);
    for i := 0 to |probes|
      invariant ProbesSet(hash, i, f.data)
    {
      if !CheckBit(probes[i], f.data) {
        return false;
      }
    }
    return true;
  }

  /** uint32 arithmetic: the product and the sum wrap around. */
  function FilterBytes(numKeys: nat, bitsPerKey: nat): nat {
    (((numKeys % TWO32) * bitsPerKey % TWO32 + 7) % TWO32) / 8
  }

  /** uint16(float32(bitsPerKey) * 0.69): both the conversion and the product are rounded to the 24
      significant bits of a float32, and 0.69 is 11576279 / 2^24 there. */
  function OptimalNumProbes(bitsPerKey: nat): (n: nat)
    ensures n < 0x1_0000
  {
    Rounded(Rounded(bitsPerKey) * 11576279) / TWO24 % 0x1_0000
  }

  datatype BuildResult = Built(filter: Filter) | DivideByZero

  /** The filter of these keys: its size and probe count, and set exactly in the probes of the keys. */
  ghost predicate BuiltFrom(filter: Filter, hashes: seq<Hash>, bitsPerKey: nat) {
    if hashes == [] then filter == Filter(0, []) else
    && |filter.data| == FilterBytes(|hashes|, bitsPerKey) > 0 && filter.numProbes == OptimalNumProbes(bitsPerKey)
    && forall b: nat :: b / 8 < |filter.data| ==>
         (CheckBit(b, filter.data) <==> Probed(b, hashes, |hashes|, filter.numProbes, |filter.data| * 8))
  }

  lemma ProbedIsSet(b: nat, hashes: seq<Hash>, n: nat, data: seq<bv8>)
    requires |data| > 0 && Probed(b, hashes, |hashes|, n, |data| * 8)
    requires forall j :: 0 <= j < |hashes| ==> ProbesSet(hashes[j], n, data)
    ensures b / 8 < |data| && CheckBit(b, data)
  {
    hide ProbeAt, Mask;
    var j, i :| 0 <= j < |hashes| && 0 <= i < n && ProbeAt(hashes[j], i, |data| * 8) == b;
    assert ProbesSet(hashes[j], n, data);
  }

  /** Building panics if and only if there are keys and the wrapped bit count leaves no byte, which
      is the case exactly when keys times bits, modulo 2^32, is 0 or above 2^32 - 8. Otherwise every
      added key tests present, whether or not the product wrapped, no bit is set that is not a
      probe of an added key, and there are as few bytes as hold the wrapped number of bits. */
  method Build(hashes: seq<Hash>, bitsPerKey: nat) returns (r: BuildResult)
    requires bitsPerKey < TWO32
    ensures r.DivideByZero? <==> hashes != [] && FilterBytes(|hashes|, bitsPerKey) == 0
    ensures r.DivideByZero? <==>
      hashes != [] && var p := (|hashes| % TWO32) * bitsPerKey % TWO32; p == 0 || p > TWO32 - 8
    ensures r.Built? ==> |r.filter.data| * 8 < TWO32 && r.filter.numProbes < 0x1_0000
    ensures r.Built? ==> forall h :: h in hashes ==> HasHash(r.filter, h)
    ensures r.Built? && hashes != [] ==>
      var p := (|hashes| % TWO32) * bitsPerKey % TWO32;
      8 * (|r.filter.data| - 1) < p <= 8 * |r.filter.data|
    ensures r.Built? ==> BuiltFrom(r.filter, hashes, bitsPerKey)
  {
    hide OptimalNumProbes, FilterBytes, ProbesSet, Probed, Mask, ProbeAt;
    if |hashes| == 0 {
      return Built(Filter(0, []));
    }
    FilterBytesBounds(|hashes|, bitsPerKey);
    var numProbes := OptimalNumProbes(bitsPerKey);
    var bytes := FilterBytes(|hashes|, bitsPerKey);
    if bytes == 0 {
      return DivideByZero;
    }
    var buf := new bv8[bytes](i => 0);
    for k := 0 to |hashes|
      invariant forall j :: 0 <= j < k ==> ProbesSet(hashes[j], numProbes, buf[..])
      invariant forall b: nat :: b / 8 < bytes && CheckBit(b, buf[..]) ==> Probed(b, hashes, k, numProbes, bytes * 8)
    {
      ghost var was := buf[..];
      AddKey(hashes[k], numProbes, buf);
      forall b: nat | b / 8 < bytes && CheckBit(b, buf[..]) ensures Probed(b, hashes, k + 1, numProbes, bytes * 8) {
        ProbedNext(b, hashes, k, numProbes, bytes * 8);
      }
    }
    ghost var data := buf[..];
    forall b: nat | b / 8 < bytes && Probed(b, hashes, |hashes|, numProbes, bytes * 8) ensures CheckBit(b, data) {
      ProbedIsSet(b, hashes, numProbes, data);
    }
    return Built(Filter(numProbes, buf[..]));
  }

  lemma FilterBytesBounds(numKeys: nat, bitsPerKey: nat)
    ensures FilterBytes(numKeys, bitsPerKey) * 8 < TWO32
    ensures FilterBytes(numKeys, bitsPerKey) == 0 <==>
      var p := (numKeys % TWO32) * bitsPerKey % TWO32; p == 0 || p > TWO32 - 8
    ensures FilterBytes(numKeys, bitsPerKey) > 0 ==>
      var p := (numKeys % TWO32) * bitsPerKey % TWO32;
      8 * (FilterBytes(numKeys, bitsPerKey) - 1) < p <= 8 * FilterBytes(numKeys, bitsPerKey)
  {
  }

  lemma ProbedNext(b: nat, hashes: seq<Hash>, k: nat, n: nat, bits: nat)
    requires bits > 0 && k < |hashes|
    requires Probed(b, hashes, k, n, bits) || ProbeOf(b, hashes[k], n, bits)
    ensures Probed(b, hashes, k + 1, n, bits)
  {
    hide ProbeAt;
    if ProbeOf(b, hashes[k], n, bits) {
      var i :| 0 <= i < n && ProbeAt(hashes[k], i, bits) == b;
    } else {
      var j, i :| 0 <= j < k && 0 <= i < n && ProbeAt(hashes[j], i, bits) == b;
    }
  }

  ghost predicate ProbeOf(bit: nat, hash: Hash, n: nat, bits: nat)
    requires bits > 0
  {
    exists i :: 0 <= i < n && ProbeAt(hash, i, bits) == bit
  }

  /** The inner loop of Build: sets exactly the probes of one key. */
  method AddKey(hash: Hash, numProbes: nat, buf: array<bv8>)
    requires 0 < buf.Length * 8 < TWO32 && numProbes < 0x1_0000
    modifies buf
    ensures ProbesSet(hash, numProbes, buf[..])
    ensures forall g: Hash, n :: ProbesSet(g, n, old(buf[..])) ==> ProbesSet(g, n, buf[..])
    ensures forall b: nat :: b / 8 < buf.Length && CheckBit(b, buf[..]) ==>
      CheckBit(b, old(buf[..])) || ProbeOf(b, hash, numProbes, buf.Length * 8)
  {
    hide ProbeAt, Mask;
    var probes := ProbesForKey(hash, numProbes, buf.Length * 8);
    for p := 0 to |probes|
      invariant ProbesSet(hash, p, buf[..])
      invariant forall g: Hash, n :: ProbesSet(g, n, old(buf[..])) ==> ProbesSet(g, n, buf[..])
      invariant forall b: nat :: b / 8 < buf.Length && CheckBit(b, buf[..]) ==>
        CheckBit(b, old(buf[..])) || ProbeOf(b, hash, numProbes, buf.Length * 8)
    {
      SetBit(probes[p], buf);
    }
  }

  // ---- the probe count in float32

  const TWO24: nat := 0x100_0000

  /** The distance between neighbours with 24 significant bits. */
  function Ulp(n: nat): (u: nat)
    ensures u > 0
  {
    if n < TWO24 then 1 else 2 * Ulp(n / 2)
  }

  /** The nearest number with 24 significant bits, the even one of two. */
  function Rounded(n: nat): nat {
    var u := Ulp(n);
    var q, r := n / u, n % u;
    (if 2 * r > u || (2 * r == u && q % 2 == 1) then q + 1 else q) * u
  }

  lemma {:induction false} UlpBounds(n: nat)
    ensures n < TWO24 * Ulp(n)
    ensures n >= TWO24 ==> Ulp(n) * (TWO24 / 2) <= n
  {
    if n >= TWO24 {
      UlpBounds(n / 2);
    }
  }

  /** Below 2^40 the distance divides 2^24. */
  lemma UlpDivides(n: nat)
    requires n < TWO24 * 0x1_0000
    ensures Ulp(n) <= 0x1_0000 && TWO24 % Ulp(n) == 0
  {
    PowDivides(16);
    UlpIsPower(n, 16);
  }

  function Pow2(k: nat): (p: nat)
    ensures p > 0
  {
    if k == 0 then 1 else 2 * Pow2(k - 1)
  }

  lemma {:induction false} UlpIsPower(n: nat, k: nat)
    requires k <= 16 && n < TWO24 * Pow2(k)
    ensures Ulp(n) <= 0x1_0000 && TWO24 % Ulp(n) == 0
  {
    var j := UlpExponent(n, k);
    PowDivides(j);
  }

  lemma {:induction false} UlpExponent(n: nat, k: nat) returns (j: nat)
    requires n < TWO24 * Pow2(k)
    ensures j <= k && Ulp(n) == Pow2(j)
    decreases k
  {
    if n < TWO24 {
      j := 0;
    } else {
      var i := UlpExponent(n / 2, k - 1);
      j := i + 1;
    }
  }

  lemma PowDivides(j: nat)
    requires j <= 16
    ensures Pow2(j) <= 0x1_0000 && TWO24 % Pow2(j) == 0 && Pow2(16) == 0x1_0000
  {
    assert Pow2(4) == 16 && Pow2(8) == 256 && Pow2(12) == 4096 && Pow2(16) == 0x1_0000;
  }

  /** Rounding moves a number by at most half the distance, and never over a multiple of it. */
  lemma RoundedNear(n: nat)
    ensures var u, m := Ulp(n), Rounded(n); 2 * m <= 2 * n + u && 2 * n <= 2 * m + u && m % u == 0
  {
    hide Ulp;
    NearestMultiple(n, Ulp(n));
  }

  lemma NearestMultiple(n: nat, u: nat)
    requires u > 0
    ensures var q, r := n / u, n % u;
      var m := (if 2 * r > u || (2 * r == u && q % 2 == 1) then q + 1 else q) * u;
      2 * m <= 2 * n + u && 2 * n <= 2 * m + u && m % u == 0
  {
    var q, r := n / u, n % u;
    Multiple(q, u);
    Multiple(q + 1, u);
    assert n == q * u + r && (q + 1) * u == q * u + u;
  }

  lemma Multiple(q: nat, u: nat)
    requires u > 0
    ensures (q * u) % u == 0
  {
    ModShift(0, q, u);
  }

  /** For as many bits per key as give a 16-bit count, the float32 result is 69 percent of the bits,
      rounded down. At 94980 bits the count is 65536. */
  lemma ProbesAre69Percent(bits: nat)
    requires bits <= 94979
    ensures OptimalNumProbes(bits) == bits * 69 / 100
  {
    assert Rounded(bits) == bits;
    var n, k := bits * 11576279, bits * 69 / 100;
    hide Ulp, Rounded;
    UlpDivides(n);
    RoundedNear(n);
    UlpBounds(n);
    Scaled69(bits, n, k, Ulp(n), Rounded(n));
  }

  /** The product is 69 bits / 100 less a 25th of a distance or so, and rounding makes up for it. */
  lemma Scaled69(bits: nat, n: nat, k: nat, u: nat, m: nat)
    requires bits <= 94979 && n == bits * 11576279 && k == bits * 69 / 100
    requires 0 < u <= 0x1_0000 && TWO24 % u == 0 && m % u == 0 && n < TWO24 * u
    requires 2 * m <= 2 * n + u && 2 * n <= 2 * m + u
    ensures m / TWO24 % 0x1_0000 == k
  {
    var j := bits * 69 - 100 * k;
    Near69(bits, n, k, j, u, m);
    assert m >= k * TWO24 by {
      if j == 0 {
        NotBelow(m, k * TWO24, u, k);
      }
    }
    Quotient24(m, k);
  }

  /** All but the last step of rounding, which is linear. */
  lemma Near69(bits: nat, n: nat, k: nat, j: int, u: nat, m: nat)
    requires bits <= 94979 && n == bits * 11576279 && bits * 69 == 100 * k + j && 0 <= j < 100
    requires 0 < u <= 0x1_0000 && n < TWO24 * u && 2 * m <= 2 * n + u && 2 * n <= 2 * m + u
    ensures m < (k + 1) * TWO24 && m + u > k * TWO24 && (j > 0 ==> m >= k * TWO24)
  {
    assert 100 * n + 4 * bits == (100 * k + j) * TWO24;
  }

  lemma Quotient24(m: nat, k: nat)
    requires k * TWO24 <= m < (k + 1) * TWO24 && k < 0x1_0000
    ensures m / TWO24 % 0x1_0000 == k
  {
  }

  /** A multiple that is not a whole distance below another one is not below it. */
  lemma NotBelow(m: nat, target: nat, u: nat, k: nat)
    requires u > 0 && TWO24 % u == 0 && m % u == 0 && target == k * TWO24 && m + u > target
    ensures m >= target
  {
    var a, b := m / u, TWO24 / u;
    assert m == a * u && TWO24 == b * u;
    assert target == (k * b) * u;
    assert (a + 1) * u > (k * b) * u;
    if a + 1 <= k * b {
      Scaled(a + 1, k * b, u);
    }
    Scaled(k * b, a, u);
  }

  lemma Scaled(a: nat, b: nat, u: nat)
    requires a <= b
    ensures a * u <= b * u
  {
  }

  // ---- the bytes of a filter

  function ToBytes(data: seq<bv8>): (b: Bytes)
    ensures |b| == |data|
  {
    seq(|data|, i requires 0 <= i < |data| => data[i] as int)
  }

  function FromBytes(b: Bytes): (data: seq<bv8>)
    ensures |data| == |b|
  {
    seq(|b|, i requires 0 <= i < |b| => b[i] as bv8)
  }

  /** Encode: two bytes for the probe count and the bits, compressed and followed by a checksum. */
  function EncodeFilter(c: Codec, f: Filter): Bytes {
    Sealed(c, BigEndian(f.numProbes % TWO16, 2) + ToBytes(f.data))
  }

  /** Decode: too few bytes for the checksum or the probe count are an index out of range. */
  function DecodeFilter(c: Codec, data: Bytes): Decoded<Filter> {
    if |data| < 2 then Corrupt
    else if |data| < 4 then Panic
    else match Unsealed(c, data)
         case None => Corrupt
         case Some(buf) => if |buf| < 2 then Panic else Ok(Filter(Number(buf[..2]), FromBytes(buf[2..])))
  }

  /** A filter reads back if and only if its probe count fits 16 bits. */
  lemma FilterRoundTrip(c: Codec, f: Filter)
    requires Lossless(c)
    ensures |EncodeFilter(c, f)| >= 6
    ensures DecodeFilter(c, EncodeFilter(c, f)) == Ok(f) <==> f.numProbes < TWO16
  {
    hide BigEndian, Number, Sealed, Unsealed, Lossless;
    var n, d := BigEndian(f.numProbes % TWO16, 2), ToBytes(f.data);
    SealRoundTrip(c, n + d);
    Cut(n, d);
    Widths();
    NumberRoundTrip(f.numProbes % TWO16, 2);
    BytesBack(f.data);
  }

  lemma BytesBack(data: seq<bv8>)
    ensures FromBytes(ToBytes(data)) == data
  {
  }
}
