/** The v0 row format with prefix-compressed keys (internal/sstable/block/row.go). */
module RowCodec {
  import opened Types

  // ---- big-endian integers

  function Pow256(w: nat): (p: nat)
    ensures p > 0
  {
    if w == 0 then 1 else 256 * Pow256(w - 1)
  }

  /** The lowest w bytes of n, most significant first. */
  function BigEndian(n: nat, w: nat): (b: Bytes)
    ensures |b| == w
  {
    if w == 0 then [] else BigEndian(n / 256, w - 1) + [n % 256]
  }

  function Number(b: Bytes): nat {
    if b == [] then 0 else 256 * Number(b[..|b| - 1]) + b[|b| - 1]
  }

  lemma {:induction false} NumberRoundTrip(n: nat, w: nat)
    requires n < Pow256(w)
    ensures Number(BigEndian(n, w)) == n
  {
    if w > 0 {
      NumberRoundTrip(n / 256, w - 1);
      assert BigEndian(n, w)[..w - 1] == BigEndian(n / 256, w - 1);
    }
  }

  lemma Widths()
    ensures Pow256(2) == TWO16 && Pow256(4) == TWO32 && Pow256(8) == TWO64
  {
    assert Pow256(1) == 256 && Pow256(2) == TWO16 && Pow256(3) == 0x100_0000 && Pow256(4) == TWO32;
    assert Pow256(5) == 0x100_0000_0000 && Pow256(6) == 0x1_0000_0000_0000 && Pow256(7) == 0x100_0000_0000_0000;
  }

  lemma {:induction false} NumberBound(b: Bytes)
    ensures Number(b) < Pow256(|b|)
  {
    if b != [] {
      NumberBound(b[..|b| - 1]);
    }
  }

  // ---- rows

  /** An instant in nanoseconds since 1970. */
  datatype Time = Time(ns: int)

  /** Go's zero time, the start of year 1. */
  const ZeroTime := Time(-62135596800_000000000)

  /** The format treats a time as set only if its sub-second part is not zero. */
  predicate IsSet(t: Time) {
    t.ns % 1000000000 != 0
  }

  /** The milliseconds since 1970 fit in an int64. */
  predicate InRange(t: Time) {
    -(TWO64 / 2) <= t.ns / 1000000 < TWO64 / 2
  }

  /** uint64(t.UnixMilli()) */
  function Millis(t: Time): nat {
    (t.ns / 1000000) % TWO64
  }

  /** time.UnixMilli(int64(m)) */
  function FromMillis(m: nat): Time {
    Time((if m < TWO64 / 2 then m else m - TWO64) * 1000000)
  }

  datatype Row = Row(seqNum: nat, expireAt: Time, createdAt: Time, value: Value, prefixLen: nat, suffix: Bytes)

  function Flags(r: Row): Byte {
    (if r.value.Tombstone? then 1 else 0) + (if IsSet(r.expireAt) then 2 else 0) + (if IsSet(r.createdAt) then 4 else 0)
  }

  function Size(r: Row): nat {
    2 + 2 + |r.suffix| + 8 + 1
    + (if IsSet(r.expireAt) then 8 else 0)
    + (if IsSet(r.createdAt) then 8 else 0)
    + match r.value case Tombstone => 0 case KeyValue(bytes) => 4 + |bytes|
  }

  function EncodeTime(t: Time): Bytes {
    if IsSet(t) then BigEndian(Millis(t), 8) else []
  }

  function EncodeValue(v: Value): Bytes {
    match v
    case Tombstone => []
    case KeyValue(bytes) => BigEndian(|bytes| % TWO32, 4) + bytes
  }

  /** Lengths are truncated to their fields, as the conversions in the source do. */
  function Encode(r: Row): (b: Bytes)
    ensures |b| == Size(r)
  {
    BigEndian(r.prefixLen % TWO16, 2) + (BigEndian(|r.suffix| % TWO16, 2) + (r.suffix + (BigEndian(r.seqNum % TWO64, 8)
      + ([Flags(r)] + (EncodeTime(r.expireAt) + (EncodeTime(r.createdAt) + EncodeValue(r.value)))))))
  }

  /** Decoding: a row, an error, or an index out of range. */
  datatype Decoded<T> = Ok(value: T) | Corrupt | Panic

  function DecodeTime(present: bool, data: Bytes): Decoded<(Time, Bytes)> {
    if !present then Ok((ZeroTime, data))
    else if |data| < 8 then Corrupt
    else Ok((FromMillis(Number(data[..8])), data[8..]))
  }

  function DecodeValue(tombstone: bool, data: Bytes): Decoded<Value> {
    if tombstone then Ok(Tombstone)
    else if |data| < 4 then Corrupt
    else
      var n := Number(data[..4]);
      if |data| - 4 < n then Corrupt else Ok(KeyValue(data[4..][..n]))
  }

  datatype Peeked = Peeked(prefixLen: nat, suffix: Bytes)

  /** PeekAtKey: the key fields only. */
  function PeekAtKey(data: Bytes, firstKey: Key): Decoded<Peeked> {
    if |data| < 4 then Corrupt else
      var p, n := Number(data[..2]), Number(data[2..4]);
      if p > |firstKey| % TWO16 || |data| - 4 < n then Corrupt else Ok(Peeked(p, data[4..][..n]))
  }

  function DecodeTail(p: nat, suffix: Bytes, data: Bytes): Decoded<Row> {
    if |data| < 9 then Panic else
      var seqNum, flags := Number(data[..8]), data[8];
      match DecodeTime(flags / 2 % 2 == 1, data[9..])
      case Ok((expire, afterExpire)) => (
        match DecodeTime(flags / 4 % 2 == 1, afterExpire)
        case Ok((create, afterCreate)) => (
          match DecodeValue(flags % 2 == 1, afterCreate)
          case Ok(value) => Ok(Row(seqNum, expire, create, value, p, suffix))
          case _ => Corrupt)
        case _ => Corrupt)
      case _ => Corrupt
  }

  function Decode(data: Bytes, firstKey: Key): Decoded<Row> {
    if |data| < 13 then Corrupt else
      match PeekAtKey(data, firstKey)
      case Ok(Peeked(p, suffix)) => DecodeTail(p, suffix, data[4 + |suffix|..])
      case _ => Corrupt
  }

  /** v0FullKey; the source asserts that the prefix is long enough. */
  function FullKey(prefixLen: nat, suffix: Bytes, prefix: Key): Key
    requires prefixLen <= |prefix|
  {
    prefix[..prefixLen] + suffix
  }

  // ---- round trip

  /** What a stored time reads back as: truncated to milliseconds, or unset. */
  function StoredTime(t: Time): Time {
    if IsSet(t) then Time(t.ns / 1000000 * 1000000) else ZeroTime
  }

  /** A time reads back exactly if and only if it is the zero time, or a whole number of
      milliseconds that is not a whole number of seconds. */
  lemma StoredTimeExact(t: Time)
    ensures StoredTime(t) == t <==> t == ZeroTime || (t.ns % 1000000 == 0 && t.ns % 1000000000 != 0)
  {
  }

  /** The lengths fit their fields. */
  predicate Fits(r: Row) {
    && r.prefixLen < TWO16 && |r.suffix| < TWO16 && r.seqNum < TWO64
    && (r.value.KeyValue? ==> |r.value.bytes| < TWO32)
    && InRange(r.expireAt) && InRange(r.createdAt)
  }

  lemma Cut(a: Bytes, b: Bytes)
    ensures (a + b)[..|a|] == a && (a + b)[|a|..] == b
  {
  }

  lemma TimeRoundTrip(t: Time, rest: Bytes)
    requires InRange(t)
    ensures DecodeTime(IsSet(t), EncodeTime(t) + rest) == Ok((StoredTime(t), rest))
  {
    hide BigEndian, Number;
    if IsSet(t) {
      Widths();
      NumberRoundTrip(Millis(t), 8);
      Cut(BigEndian(Millis(t), 8), rest);
    } else {
      assert [] + rest == rest;
    }
  }

  /** What a stored value reads back as: the part that its 32-bit length still covers. */
  function KeptValue(v: Value): (kept: Value)
    ensures kept.KeyValue? ==> |kept.bytes| < TWO32
    ensures (v.KeyValue? ==> |v.bytes| < TWO32) ==> kept == v
  {
    match v
    case Tombstone => Tombstone
    case KeyValue(bytes) =>
      assert |bytes| < TWO32 ==> bytes[..|bytes| % TWO32] == bytes;
      KeyValue(bytes[..|bytes| % TWO32])
  }

  lemma ValueReads(v: Value, rest: Bytes)
    ensures DecodeValue(v.Tombstone?, EncodeValue(v) + rest) == Ok(KeptValue(v))
  {
    hide BigEndian, Number;
    if v.KeyValue? {
      Widths();
      var len := |v.bytes| % TWO32;
      NumberRoundTrip(len, 4);
      var n := BigEndian(len, 4);
      assert n + v.bytes + rest == n + (v.bytes + rest);
      Cut(n, v.bytes + rest);
      assert (v.bytes + rest)[..len] == v.bytes[..len];
    }
  }

  /** The part of a row after its key fields. */
  function EncodeTail(r: Row): Bytes {
    BigEndian(r.seqNum % TWO64, 8)
    + ([Flags(r)] + (EncodeTime(r.expireAt) + (EncodeTime(r.createdAt) + EncodeValue(r.value))))
  }

  /** A row of any lengths, read after its key fields. */
  lemma TailReads(r: Row, rest: Bytes)
    requires r.seqNum < TWO64 && InRange(r.expireAt) && InRange(r.createdAt)
    ensures DecodeTail(r.prefixLen, r.suffix, EncodeTail(r) + rest)
         == Ok(r.(expireAt := StoredTime(r.expireAt), createdAt := StoredTime(r.createdAt),
                  value := KeptValue(r.value)))
  {
    hide BigEndian, Number, EncodeTime, EncodeValue, DecodeTime, DecodeValue, StoredTime, InRange, IsSet, KeptValue;
    Widths();
    NumberRoundTrip(r.seqNum, 8);
    var s, f := BigEndian(r.seqNum, 8), [Flags(r)];
    var e, c, v := EncodeTime(r.expireAt), EncodeTime(r.createdAt), EncodeValue(r.value);
    assert EncodeTail(r) + rest == s + (f + (e + (c + (v + rest))));
    Cut(s, f + (e + (c + (v + rest))));
    Cut(s + f, e + (c + (v + rest)));
    assert s + (f + (e + (c + (v + rest)))) == (s + f) + (e + (c + (v + rest)));
    TimeRoundTrip(r.expireAt, c + (v + rest));
    TimeRoundTrip(r.createdAt, v + rest);
    ValueReads(r.value, rest);
  }

  /** The part of a suffix that its 16-bit length still covers. */
  function KeptSuffix(suffix: Bytes): (kept: Bytes)
    ensures |kept| < TWO16 && kept <= suffix && (|suffix| < TWO16 ==> kept == suffix)
  {
    suffix[..|suffix| % TWO16]
  }

  /** Peeking at any row gives the suffix up to its truncated length, whatever bytes follow. */
  lemma PeekAny(r: Row, rest: Bytes, firstKey: Key)
    requires r.prefixLen < TWO16 && r.prefixLen <= |firstKey| % TWO16
    ensures PeekAtKey(Encode(r) + rest, firstKey) == Ok(Peeked(r.prefixLen, KeptSuffix(r.suffix)))
    ensures (Encode(r) + rest)[4 + |r.suffix|..] == EncodeTail(r) + rest
  {
    hide BigEndian, Number, EncodeTime, EncodeValue, Flags;
    Widths();
    NumberRoundTrip(r.prefixLen, 2);
    NumberRoundTrip(|r.suffix| % TWO16, 2);
    var p, n, t := BigEndian(r.prefixLen, 2), BigEndian(|r.suffix| % TWO16, 2), EncodeTail(r) + rest;
    var data := Encode(r) + rest;
    assert data == p + (n + (r.suffix + t));
    Cut(p, n + (r.suffix + t));
    assert data[2..4] == n;
    assert data[4..] == r.suffix + t;
    assert (r.suffix + t)[..|r.suffix| % TWO16] == KeptSuffix(r.suffix);
    Cut(r.suffix, t);
  }

  lemma PeekRoundTrip(r: Row, rest: Bytes, firstKey: Key)
    requires r.prefixLen < TWO16 && |r.suffix| < TWO16 && r.prefixLen <= |firstKey| % TWO16
    ensures PeekAtKey(Encode(r) + rest, firstKey) == Ok(Peeked(r.prefixLen, r.suffix))
    ensures (Encode(r) + rest)[4 + |r.suffix|..] == EncodeTail(r) + rest
  {
    hide Encode, EncodeTail, PeekAtKey;
    PeekAny(r, rest, firstKey);
  }

  /** Whatever the bytes are, a decoded row has the suffix that is peeked at, and its lengths fit. */
  lemma DecodedFits(data: Bytes, firstKey: Key)
    requires Decode(data, firstKey).Ok?
    ensures var row := Decode(data, firstKey).value;
      && PeekAtKey(data, firstKey) == Ok(Peeked(row.prefixLen, row.suffix))
      && row.prefixLen <= |firstKey| % TWO16
      && |row.suffix| < TWO16 && (row.value.KeyValue? ==> |row.value.bytes| < TWO32)
  {
    hide Number;
    Widths();
    NumberBound(data[2..4]);
    var p := PeekAtKey(data, firstKey).value;
    DecodedValueFits(p.prefixLen, p.suffix, data[4 + |p.suffix|..]);
  }

  lemma DecodedValueFits(p: nat, suffix: Bytes, data: Bytes)
    requires DecodeTail(p, suffix, data).Ok?
    ensures var row := DecodeTail(p, suffix, data).value;
      row.prefixLen == p && row.suffix == suffix && (row.value.KeyValue? ==> |row.value.bytes| < TWO32)
  {
    hide Number;
    Widths();
    forall b: Bytes | |b| == 4 ensures Number(b) < TWO32 { NumberBound(b); }
  }

  /** A row whose key fits reads back, whatever bytes follow it; its times are truncated, and its value
      is cut to what its length field says. */
  lemma RowReadsBack(r: Row, rest: Bytes, firstKey: Key)
    requires r.prefixLen < TWO16 && |r.suffix| < TWO16 && r.prefixLen <= |firstKey| % TWO16
    requires r.seqNum < TWO64 && InRange(r.expireAt) && InRange(r.createdAt)
    ensures Decode(Encode(r) + rest, firstKey)
         == Ok(r.(expireAt := StoredTime(r.expireAt), createdAt := StoredTime(r.createdAt),
                  value := KeptValue(r.value)))
  {
    hide Encode, EncodeTail, PeekAtKey, DecodeTail, StoredTime, InRange, KeptValue;
    PeekRoundTrip(r, rest, firstKey);
    TailReads(r, rest);
    EncodedLength(r, rest);
  }

  /** Any row whose lengths fit reads back, whatever bytes follow it; only its times are truncated. */
  lemma RowRoundTrip(r: Row, rest: Bytes, firstKey: Key)
    requires Fits(r) && r.prefixLen <= |firstKey| % TWO16
    ensures Decode(Encode(r) + rest, firstKey)
         == Ok(r.(expireAt := StoredTime(r.expireAt), createdAt := StoredTime(r.createdAt)))
  {
    hide Encode, Decode, StoredTime, InRange;
    RowReadsBack(r, rest, firstKey);
  }

  /** Decoding a row of any lengths never runs out of bounds: a truncated suffix length only leaves
      more bytes for the rest. */
  lemma NeverPanics(r: Row, rest: Bytes, firstKey: Key)
    requires r.prefixLen < TWO16 && r.prefixLen <= |firstKey| % TWO16
    ensures !Decode(Encode(r) + rest, firstKey).Panic?
  {
    PeekAny(r, rest, firstKey);
    hide Encode, PeekAtKey, DecodeTime, DecodeValue, Number;
  }

  lemma EncodedLength(r: Row, rest: Bytes)
    ensures |Encode(r) + rest| >= 13
  {
  }

  /** The key fields read back if and only if the suffix fits its 16-bit length. */
  lemma KeyRoundTripIff(r: Row, rest: Bytes, firstKey: Key)
    requires r.prefixLen < TWO16 && r.prefixLen <= |firstKey| % TWO16
    ensures PeekAtKey(Encode(r) + rest, firstKey) == Ok(Peeked(r.prefixLen, r.suffix)) <==> |r.suffix| < TWO16
  {
    hide Encode, PeekAtKey;
    PeekAny(r, rest, firstKey);
  }

  // ---- the common prefix

  /** The length of the longest common prefix. */
  function Lcp(a: Bytes, b: Bytes): nat
  {
    if a == [] || b == [] || a[0] != b[0] then 0 else 1 + Lcp(a[1..], b[1..])
  }

  lemma {:induction false} LcpSplits(a: Bytes, b: Bytes)
    ensures Lcp(a, b) <= |a| && Lcp(a, b) <= |b| && a[..Lcp(a, b)] == b[..Lcp(a, b)]
    ensures Lcp(a, b) < |a| && Lcp(a, b) < |b| ==> a[Lcp(a, b)] != b[Lcp(a, b)]
  {
    if a != [] && b != [] && a[0] == b[0] {
      LcpSplits(a[1..], b[1..]);
      var n := Lcp(a[1..], b[1..]);
      assert a[..n + 1] == [a[0]] + a[1..][..n] && b[..n + 1] == [b[0]] + b[1..][..n];
    }
  }

  /** An agreeing stretch that cannot be extended is the longest common prefix. */
  lemma {:induction false} LcpUnique(a: Bytes, b: Bytes, n: nat)
    requires n <= |a| && n <= |b| && a[..n] == b[..n]
    requires n == |a| || n == |b| || a[n] != b[n]
    ensures Lcp(a, b) == n
  {
    if n > 0 {
      assert a[..n][0] == a[0] && b[..n][0] == b[0];
      assert a[1..][..n - 1] == a[..n][1..] && b[1..][..n - 1] == b[..n][1..];
      LcpUnique(a[1..], b[1..], n - 1);
    }
  }

  ghost predicate Agree(a: Bytes, b: Bytes, n: nat) {
    n <= |a| && n <= |b| && a[..n] == b[..n]
  }

  /** computePrefixChunks: for every chunk size the result is the longest common prefix, truncated
      to 16 bits. */
  method ComputePrefixChunks(lhs: Bytes, rhs: Bytes, chunkSize: nat) returns (r: nat)
    requires chunkSize > 0
    ensures r == Lcp(lhs, rhs) % TWO16
  {
    var minLen := if |lhs| < |rhs| then |lhs| else |rhs|;
    var off := AgreeingChunks(lhs, rhs, chunkSize, minLen);
    while off < minLen && lhs[off] == rhs[off]
      invariant Agree(lhs, rhs, off)
    {
      AgreeFurther(lhs, rhs, off, off + 1);
      off := off + 1;
    }
    LcpUnique(lhs, rhs, off);
    r := off % TWO16;
  }

  /** The first loop: whole chunks. */
  method AgreeingChunks(lhs: Bytes, rhs: Bytes, chunkSize: nat, minLen: nat) returns (off: nat)
    requires chunkSize > 0 && minLen <= |lhs| && minLen <= |rhs|
    ensures Agree(lhs, rhs, off) && off <= minLen
  {
    hide Agree;
    var chunks := minLen / chunkSize;
    off := 0;
    var i := 0;
    assert Agree(lhs, rhs, 0) by { AgreeNone(lhs, rhs); }
    while i < chunks
      invariant 0 <= i <= chunks && off == i * chunkSize <= minLen
      invariant Agree(lhs, rhs, off)
    {
      ChunkFits(i, chunks, chunkSize, minLen);
      var start := i * chunkSize;
      var end := start + chunkSize;
      if lhs[start..end] != rhs[start..end] {
        break;
      }
      AgreeFurther(lhs, rhs, start, end);
      off := off + chunkSize;
      i := i + 1;
    }
  }

  lemma AgreeNone(a: Bytes, b: Bytes)
    ensures Agree(a, b, 0)
  {
  }

  lemma AgreeFurther(a: Bytes, b: Bytes, n: nat, m: nat)
    requires n <= m <= |a| && m <= |b|
    requires Agree(a, b, n) && (a[n..m] == b[n..m] || (m == n + 1 && a[n] == b[n]))
    ensures Agree(a, b, m)
  {
    assert a[..m] == a[..n] + a[n..m] && b[..m] == b[..n] + b[n..m];
    if m == n + 1 { assert a[n..m] == [a[n]] && b[n..m] == [b[n]]; }
  }

  lemma ChunkFits(i: nat, chunks: nat, size: nat, len: nat)
    requires size > 0 && i < chunks && chunks == len / size
    ensures i * size + size <= len
    ensures (i + 1) * size == i * size + size
  {
    Scale(i + 1, chunks, size);
    assert chunks * size <= len;
  }

  lemma Scale(a: nat, b: nat, m: nat)
    requires a <= b
    ensures a * m <= b * m
  {
  }

  /** Dropping the common prefix loses nothing: the full key comes back from the first key. */
  lemma FullKeyRestores(first: Key, key: Key)
    ensures Lcp(first, key) <= |first| && Lcp(first, key) <= |key|
    ensures FullKey(Lcp(first, key), key[Lcp(first, key)..], first) == key
  {
    LcpSplits(first, key);
  }
}
