/** The formats byte by byte: what a reader of the files in another language must know
    (internal/sstable/block/row.go, internal/sstable/block/block.go, internal/sstable/bloom/bloom.go). */
module Layouts {
  import opened Types
  import opened RowCodec
  import opened Blocks
  import opened Bloom
  import opened WalLists

  // ---- numbers

  /** Most significant byte first. */
  lemma {:induction false} ByteAt(n: nat, w: nat, i: nat)
    requires i < w
    ensures BigEndian(n, w)[i] == n / Pow256(w - 1 - i) % 256
  {
    if i < w - 1 {
      ByteAt(n / 256, w - 1, i);
      DivTwice(n, Pow256(w - 2 - i));
    }
  }

  lemma DivTwice(n: nat, p: nat)
    requires p > 0
    ensures n / 256 / p == n / (256 * p)
  {
    var q := n / 256 / p;
    var r, s := n / 256 % p, n % 256;
    assert n == 256 * (n / 256) + s && n / 256 == p * q + r;
    assert n == (256 * p) * q + (256 * r + s);
    assert 256 * r + s < 256 * p;
    DivUniqueQuotient(n, 256 * p, q, 256 * r + s);
  }

  lemma DivUniqueQuotient(n: nat, m: nat, q: nat, r: nat)
    requires m > 0 && r < m && n == m * q + r
    ensures n / m == q
  {
    DivUnique(n, m, q, r);
    assert m * (n / m) == m * q;
    SameQuotient(m, n / m, q);
  }

  lemma SameQuotient(m: nat, a: nat, b: nat)
    requires m > 0 && m * a == m * b
    ensures a == b
  {
    if a < b { Grows(m, a, b); }
    if b < a { Grows(m, b, a); }
  }

  lemma Grows(m: nat, a: nat, b: nat)
    requires m > 0 && a < b
    ensures m * a < m * b
  {
    assert m * b == m * a + m * (b - a);
  }

  lemma Pair(n: nat)
    ensures BigEndian(n, 2) == [n / 256 % 256, n % 256]
  {
    ByteAt(n, 2, 0);
    ByteAt(n, 2, 1);
    assert Pow256(0) == 1 && Pow256(1) == 256;
  }

  lemma Quad(n: nat)
    ensures BigEndian(n, 4) == [n / 0x100_0000 % 256, n / 0x1_0000 % 256, n / 256 % 256, n % 256]
  {
    ByteAt(n, 4, 0);
    ByteAt(n, 4, 1);
    ByteAt(n, 4, 2);
    ByteAt(n, 4, 3);
    assert Pow256(0) == 1 && Pow256(1) == 256 && Pow256(2) == 0x1_0000 && Pow256(3) == 0x100_0000;
  }

  // ---- rows

  lemma Slices(a: Bytes, b: Bytes, c: Bytes)
    ensures (a + (b + c))[..|a|] == a
    ensures (a + (b + c))[|a|..|a| + |b|] == b
    ensures (a + (b + c))[|a| + |b|..] == c
  {
  }

  /** The key fields: two lengths of two bytes and the suffix. */
  lemma KeyLayout(r: Row)
    ensures var b, n := Encode(r), |r.suffix|;
      && |b| >= 13 + n
      && b[..2] == [r.prefixLen / 256 % 256, r.prefixLen % 256]
      && b[2..4] == [n / 256 % 256, n % 256]
      && b[4..4 + n] == r.suffix && b[4 + n..] == EncodeTail(r)
  {
    hide BigEndian, EncodeTime, EncodeValue, Flags;
    var p, l := BigEndian(r.prefixLen % TWO16, 2), BigEndian(|r.suffix| % TWO16, 2);
    Pair(r.prefixLen % TWO16);
    Pair(|r.suffix| % TWO16);
    LowByte(r.prefixLen);
    LowByte(|r.suffix|);
    var b := Encode(r);
    assert b == p + (l + (r.suffix + EncodeTail(r)));
    Slices(p, l, r.suffix + EncodeTail(r));
    assert b == (p + l) + (r.suffix + EncodeTail(r));
    Slices(p + l, r.suffix, EncodeTail(r));
  }

  lemma LowByte(n: nat)
    ensures n % TWO16 / 256 % 256 == n / 256 % 256 && n % TWO16 % 256 == n % 256
  {
  }

  /** After the key: the sequence number in eight bytes, a byte of flags of which 1 marks a tombstone, 2 an
      expiry and 4 a creation time, the times that have a sub-second part in milliseconds since 1970,
      and the value after its length, unless it is a tombstone. */
  lemma TailLayout(r: Row)
    requires r.seqNum < TWO64
    ensures var t := EncodeTail(r);
      var e := if r.expireAt.ns % 1000000000 != 0 then 8 else 0;
      var c := if r.createdAt.ns % 1000000000 != 0 then 8 else 0;
      && |t| >= 9 + e + c
      && Number(t[..8]) == r.seqNum
      && t[8] == (if r.value.Tombstone? then 1 else 0) + (if e == 8 then 2 else 0) + (if c == 8 then 4 else 0)
      && (e == 8 ==> Number(t[9..17]) == r.expireAt.ns / 1000000 % TWO64)
      && (c == 8 ==> Number(t[9 + e..17 + e]) == r.createdAt.ns / 1000000 % TWO64)
      && (r.value.Tombstone? ==> t[9 + e + c..] == [])
      && (r.value.KeyValue? ==>
            var v, l := r.value.bytes, |r.value.bytes| % TWO32;
            t[9 + e + c..] == [l / 0x100_0000 % 256, l / 0x1_0000 % 256, l / 256 % 256, l % 256] + v)
  {
    hide BigEndian, Number;
    var s, f := BigEndian(r.seqNum % TWO64, 8), [Flags(r)];
    var e, c, v := EncodeTime(r.expireAt), EncodeTime(r.createdAt), EncodeValue(r.value);
    Widths();
    NumberRoundTrip(r.seqNum, 8);
    NumberRoundTrip(Millis(r.expireAt), 8);
    NumberRoundTrip(Millis(r.createdAt), 8);
    if r.value.KeyValue? { Quad(|r.value.bytes| % TWO32); }
    hide EncodeTime, EncodeValue, Flags, Millis;
    var t := EncodeTail(r);
    assert t == s + (f + (e + (c + v)));
    Slices(s, f, e + (c + v));
    assert t == (s + f) + (e + (c + v));
    Slices(s + f, e, c + v);
    assert t == (s + f + e) + (c + v);
    Slices(s + f + e, c, v);
    assert c + v == c + (v + []);
    assert v + [] == v;
  }

  // ---- blocks

  /** The rows, an offset of two bytes for each of them, and their number in two bytes. */
  lemma BlockLayout(b: Block)
    ensures var raw, n := BlockBytes(b), |b.offsets|;
      && |raw| == |b.data| + 2 * n + 2 && raw[..|b.data|] == b.data
      && (forall i :: 0 <= i < n ==>
            raw[|b.data| + 2 * i..|b.data| + 2 * i + 2] == [b.offsets[i] / 256 % 256, b.offsets[i] % 256])
      && raw[|b.data| + 2 * n..] == [n / 256 % 256, n % 256]
  {
    hide OffsetBytes, BigEndian;
    var raw, n, o := BlockBytes(b), |b.offsets|, OffsetBytes(b.offsets);
    Pair(n % TWO16);
    LowByte(n);
    assert raw == b.data + (o + BigEndian(n % TWO16, 2));
    Slices(b.data, o, BigEndian(n % TWO16, 2));
    forall i | 0 <= i < n
      ensures raw[|b.data| + 2 * i..|b.data| + 2 * i + 2] == [b.offsets[i] / 256 % 256, b.offsets[i] % 256]
    {
      OffsetBytesAt(b.offsets, i);
      Pair(b.offsets[i]);
      assert raw[|b.data| + 2 * i..|b.data| + 2 * i + 2] == o[2 * i..2 * i + 2];
    }
  }

  /** A block as the decoder accepts it. */
  ghost predicate Decodable(b: Block) {
    && b.data != [] && b.offsets != [] && |b.offsets| < TWO16
    && forall i :: 0 <= i < |b.offsets| ==> b.offsets[i] < TWO16 && b.offsets[i] <= |b.data| % TWO16
  }

  /** The decoder is the exact inverse of the encoder: it errs on exactly the bytes that are not those of
      a block with rows, and otherwise finds exactly that block's rows and offsets, or runs out of
      bounds looking for its first key. */
  lemma ParsesExactly(buf: Bytes)
    ensures ParsedBlock(buf).Corrupt? <==> !exists b: Block :: Decodable(b) && BlockBytes(b) == buf
    ensures forall b: Block :: Decodable(b) && BlockBytes(b) == buf ==>
      b.offsets != [] && ParsedBlock(buf) == WithFirstKey(b.data, b.offsets)
  {
    hide WithFirstKey, BlockBytes, Decodable, ParsedBlock;
    if !ParsedBlock(buf).Corrupt? {
      var b := ParsedFrom(buf);
    }
    forall b: Block | Decodable(b) && BlockBytes(b) == buf
      ensures b.offsets != [] && ParsedBlock(buf) == WithFirstKey(b.data, b.offsets) && !ParsedBlock(buf).Corrupt?
    {
      ParsesBack(b);
      KeyNeverCorrupt(b.data, b.offsets);
    }
  }

  lemma KeyNeverCorrupt(data: Bytes, offsets: seq<nat>)
    requires offsets != []
    ensures !WithFirstKey(data, offsets).Corrupt?
  {
  }

  lemma ParsesBack(b: Block)
    requires Decodable(b)
    ensures b.offsets != [] && ParsedBlock(BlockBytes(b)) == WithFirstKey(b.data, b.offsets)
  {
    hide BigEndian, Number, OffsetBytes, WithFirstKey, OffsetAt;
    var buf, n := BlockBytes(b), |b.offsets|;
    Widths();
    NumberRoundTrip(n, 2);
    assert buf[|buf| - 2..] == BigEndian(n, 2);
    assert buf[..|b.data|] == b.data;
    var offsets := seq(n, i requires 0 <= i < n => OffsetAt(buf, |b.data|, i));
    forall i | 0 <= i < n ensures offsets[i] == b.offsets[i] { OffsetReads(b, i); }
    assert offsets == b.offsets;
  }

  lemma ParsedFrom(buf: Bytes) returns (b: Block)
    requires !ParsedBlock(buf).Corrupt?
    ensures Decodable(b) && BlockBytes(b) == buf
  {
    hide BigEndian, Number, OffsetBytes, WithFirstKey;
    var count := Number(buf[|buf| - 2..]);
    var start: int := |buf| - 2 - count * 2;
    var offsets := seq(count, i requires 0 <= i < count => OffsetAt(buf, start, i));
    b := Block([], buf[..start], offsets);
    PairBack(buf[|buf| - 2..]);
    var bytes := buf[start..|buf| - 2];
    forall i | 0 <= i < count ensures offsets[i] < TWO16 && BigEndian(offsets[i], 2) == bytes[2 * i..2 * i + 2] {
      PairBack(buf[start + 2 * i..start + 2 * i + 2]);
      SubSlice(buf, start, |buf| - 2, 2 * i, 2 * i + 2);
    }
    OffsetsBack(offsets, bytes);
    assert buf == buf[..start] + buf[start..|buf| - 2] + buf[|buf| - 2..];
  }

  lemma SubSlice(s: Bytes, lo: nat, hi: nat, a: nat, b: nat)
    requires lo <= hi <= |s| && a <= b <= hi - lo
    ensures s[lo..hi][a..b] == s[lo + a..lo + b]
  {
    var x, y := s[lo..hi][a..b], s[lo + a..lo + b];
    forall k | 0 <= k < b - a ensures x[k] == y[k] {
      assert x[k] == s[lo..hi][a + k];
    }
  }

  lemma PairBack(b: Bytes)
    requires |b| == 2
    ensures Number(b) < TWO16 && BigEndian(Number(b), 2) == b
  {
    Widths();
    NumberBound(b);
    assert b[..1] == [b[0]] && b[..1][..0] == [];
    assert Number(b[..1]) == b[0];
    var hi: int, lo: int := b[0], b[1];
    assert Number(b) == 256 * hi + lo;
    Pair(Number(b));
  }

  lemma {:induction false} OffsetsBack(offsets: seq<nat>, bytes: Bytes)
    requires |bytes| == 2 * |offsets|
    requires forall i :: 0 <= i < |offsets| ==> BigEndian(offsets[i], 2) == bytes[2 * i..2 * i + 2]
    ensures OffsetBytes(offsets) == bytes
  {
    hide BigEndian;
    if offsets != [] {
      var n := |offsets| - 1;
      forall i | 0 <= i < n ensures BigEndian(offsets[..n][i], 2) == bytes[..2 * n][2 * i..2 * i + 2] {
        assert bytes[..2 * n][2 * i..2 * i + 2] == bytes[2 * i..2 * i + 2];
      }
      OffsetsBack(offsets[..n], bytes[..2 * n]);
      assert bytes == bytes[..2 * n] + bytes[2 * n..2 * n + 2];
    }
  }

  // ---- filters, seals and names

  /** The probe count in two bytes, and the bits; like blocks, compressed and followed by a checksum of the
      compressed bytes in four. */
  lemma FilterLayout(c: Codec, f: Filter)
    requires f.numProbes < TWO16
    ensures var z := c.compress([f.numProbes / 256 % 256, f.numProbes % 256] + ToBytes(f.data));
      var x := c.checksum(z);
      EncodeFilter(c, f) == z + [x / 0x100_0000 % 256, x / 0x1_0000 % 256, x / 256 % 256, x % 256]
  {
    hide BigEndian;
    Pair(f.numProbes);
    var z := c.compress(BigEndian(f.numProbes, 2) + ToBytes(f.data));
    Quad(c.checksum(z));
  }

  /** The name of a WAL file: twenty decimal digits, the most significant first, and the extension. */
  lemma WalNameLayout(id: nat)
    ensures var name := WalName(id);
      && |name| == 24 && name[20..] == ".sst"
      && forall i :: 0 <= i < 20 ==> name[i] as int == '0' as int + id / Pow10(19 - i) % 10
  {
    hide Pow10;
    forall i | 0 <= i < 20 ensures WalName(id)[i] as int == '0' as int + id / Pow10(19 - i) % 10 {
      DigitAt(id, 20, i);
    }
  }

  lemma {:induction false} DigitAt(n: nat, w: nat, i: nat)
    requires i < w
    ensures Pow10(w - 1 - i) > 0 && Digits(n, w)[i] as int == '0' as int + n / Pow10(w - 1 - i) % 10
  {
    if i < w - 1 {
      DigitAt(n / 10, w - 1, i);
      DivTen(n, Pow10(w - 2 - i));
    }
  }

  lemma DivTen(n: nat, p: nat)
    requires p > 0
    ensures n / 10 / p == n / (10 * p)
  {
    var q := n / 10 / p;
    var r, s := n / 10 % p, n % 10;
    assert n == 10 * (n / 10) + s && n / 10 == p * q + r;
    assert n == (10 * p) * q + (10 * r + s);
    assert 10 * r + s < 10 * p;
    DivUniqueQuotient(n, 10 * p, q, 10 * r + s);
  }
}
