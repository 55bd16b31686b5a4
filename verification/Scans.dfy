/** What a table yields, as a function of what it was written with. A row whose key or value is too long
    for its length field is alone in its block, so each row reads back by itself. */
module Scans {
  import opened Types
  import opened History
  import opened Keys
  import opened RowCodec

  // ---- one row

  /** The row of an entry that is alone in its block. */
  function LoneRow(e: RowEntry): Row {
    Row(0, ZeroTime, ZeroTime, e.value, 0, e.key)
  }

  /** What an entry reads back as: nothing if its row does not decode. */
  function ReadRow(e: RowEntry): seq<RowEntry> {
    match Decode(Encode(LoneRow(e)), [])
    case Ok(row) => [RowEntry(row.suffix, row.value)]
    case _ => []
  }

  lemma LonePeek(e: RowEntry)
    ensures PeekAtKey(Encode(LoneRow(e)), []) == Ok(Peeked(0, KeptSuffix(e.key)))
    ensures !Decode(Encode(LoneRow(e)), []).Panic?
  {
    hide Encode, PeekAtKey, Decode;
    assert Encode(LoneRow(e)) + [] == Encode(LoneRow(e));
    PeekAny(LoneRow(e), [], []);
    NeverPanics(LoneRow(e), [], []);
  }

  /** Whatever the lengths are, the key read is the part that the 16-bit length covers, and the value
      fits its field. */
  lemma ReadRowFits(e: RowEntry)
    ensures |ReadRow(e)| <= 1
    ensures forall x :: x in ReadRow(e) ==>
      && x.key == KeptSuffix(e.key) && |x.key| < TWO16
      && (x.key != [] ==> Storable(x))
  {
    hide Encode, Decode, PeekAtKey;
    LonePeek(e);
    if Decode(Encode(LoneRow(e)), []).Ok? {
      DecodedFits(Encode(LoneRow(e)), []);
    }
  }

  /** If the key fits, the row reads back with its value cut to what its length field says. */
  lemma ShortKeyReads(e: RowEntry)
    requires |e.key| < TWO16
    ensures ReadRow(e) == [RowEntry(e.key, KeptValue(e.value))]
  {
    hide Encode, Decode;
    assert Encode(LoneRow(e)) + [] == Encode(LoneRow(e));
    RowReadsBack(LoneRow(e), [], []);
  }

  /** What remains to be decoded after an empty key. */
  function AfterEmptyKey(e: RowEntry): Bytes {
    e.key + EncodeTail(LoneRow(e))
  }

  /** Exactly when an entry reads back as a row for the empty key: its length is a multiple of 65536,
      and the bytes of the key themselves decode as the rest of a row. */
  lemma ReadsEmptyKey(e: RowEntry)
    ensures (exists x :: x in ReadRow(e) && x.key == []) <==>
      |e.key| % TWO16 == 0 && DecodeTail(0, [], AfterEmptyKey(e)).Ok?
  {
    hide PeekAtKey, DecodeTail, Encode, EncodeTail;
    ReadRowFits(e);
    LonePeek(e);
    var data := Encode(LoneRow(e));
    if |e.key| % TWO16 == 0 {
      assert KeptSuffix(e.key) == [];
      assert data[4..] == AfterEmptyKey(e) by { EncodedParts(e); }
      LoneLength(e);
      if DecodeTail(0, [], AfterEmptyKey(e)).Ok? {
        assert ReadRow(e)[0] in ReadRow(e);
      }
    } else {
      assert |KeptSuffix(e.key)| > 0;
    }
  }

  lemma EncodedParts(e: RowEntry)
    ensures Encode(LoneRow(e))[4..] == AfterEmptyKey(e)
  {
    hide BigEndian, EncodeTime, EncodeValue, Flags;
    var a, b := BigEndian(0, 2), BigEndian(|e.key| % TWO16, 2);
    assert Encode(LoneRow(e)) == (a + b) + AfterEmptyKey(e);
    Cut(a + b, AfterEmptyKey(e));
  }

  lemma LoneLength(e: RowEntry)
    ensures |Encode(LoneRow(e))| >= 13
  {
  }

  // ---- a table

  /** What a scan of a table written with these entries yields. */
  function Scanned(s: seq<RowEntry>): seq<RowEntry> {
    if s == [] then [] else Scanned(s[..|s| - 1]) + ReadRow(s[|s| - 1])
  }

  lemma {:induction false} ScannedConcat(a: seq<RowEntry>, b: seq<RowEntry>)
    ensures Scanned(a + b) == Scanned(a) + Scanned(b)
  {
    hide ReadRow;
    if b == [] {
      assert a + b == a;
    } else {
      ScannedConcat(a, b[..|b| - 1]);
      assert (a + b)[..|a + b| - 1] == a + b[..|b| - 1];
    }
  }

  lemma ScannedOne(e: RowEntry)
    ensures Scanned([e]) == ReadRow(e)
  {
    hide ReadRow;
    assert [e][..0] == [];
    assert Scanned([]) == [];
  }

  /** Entries that fit are scanned as they are. */
  lemma {:induction false} ScannedFit(s: seq<RowEntry>)
    requires forall i :: 0 <= i < |s| ==> Storable(s[i])
    ensures Scanned(s) == s
  {
    hide ReadRow;
    if s != [] {
      var n := |s| - 1;
      ScannedFit(s[..n]);
      assert Storable(s[n]);
      ShortKeyReads(s[n]);
      assert s == s[..n] + [s[n]];
    }
  }

  /** Where a scanned entry comes from. */
  lemma {:induction false} ScannedFrom(s: seq<RowEntry>, x: RowEntry) returns (i: nat)
    requires x in Scanned(s)
    ensures i < |s| && x in ReadRow(s[i])
  {
    hide ReadRow;
    var n := |s| - 1;
    if x in ReadRow(s[n]) {
      i := n;
    } else {
      i := ScannedFrom(s[..n], x);
    }
  }

  lemma {:induction false} ScannedHas(s: seq<RowEntry>, i: nat, x: RowEntry)
    requires i < |s| && x in ReadRow(s[i])
    ensures x in Scanned(s)
  {
    hide ReadRow;
    if i < |s| - 1 {
      ScannedHas(s[..|s| - 1], i, x);
    }
  }

  /** Every entry that a scan yields fits, unless its key is empty. */
  lemma ScannedStorable(s: seq<RowEntry>, x: RowEntry)
    requires x in Scanned(s)
    ensures |x.key| < TWO16 && (x.key != [] ==> Storable(x))
  {
    hide ReadRow;
    var i := ScannedFrom(s, x);
    ReadRowFits(s[i]);
  }

  // ---- tables written with rows

  function PersistEntries(s: seq<RowEntry>): (p: seq<RowEntry>)
    ensures |p| == |s|
  {
    seq(|s|, i requires 0 <= i < |s| => RowEntry(s[i].key, Persist(s[i].value)))
  }

  lemma {:induction false} PersistApply(s: seq<RowEntry>)
    ensures Apply(PersistEntries(s)) == PersistRows(Apply(s))
  {
    if s != [] {
      var n := |s| - 1;
      PersistApply(s[..n]);
      assert PersistEntries(s)[..n] == PersistEntries(s[..n]);
    }
  }

  lemma PersistSorted(s: seq<RowEntry>)
    ensures Sorted(s) <==> Sorted(PersistEntries(s))
  {
    hide Less;
    assert forall i :: 0 <= i < |s| ==> PersistEntries(s)[i].key == s[i].key;
  }

  /** The entries with which a table of these rows is written. */
  ghost function WrittenEntries(rows: Rows): (s: seq<RowEntry>)
    ensures Sorted(s) && Apply(s) == PersistRows(rows)
  {
    Listing(PersistRows(rows))
  }

  /** What a scan of a table written with these rows yields. */
  ghost function ScanOf(rows: Rows): seq<RowEntry> {
    Scanned(WrittenEntries(rows))
  }

  /** `found` is what lookups in a table written with `rows` may find. Every key that fits its length
      field is found, its value cut to what the value's length field says. Any other key found is one
      that a scan yields, for a longer key that was truncated; whether it is depends on where the
      blocks start and on the filter. */
  ghost predicate Finds(rows: Rows, found: Rows) {
    && (forall k :: k in rows && 0 < |k| < TWO16 ==> Lookup(found, k) == Some(KeptValue(Persist(rows[k]))))
    && (forall k :: k in found && !(k in rows && 0 < |k| < TWO16) ==> k != [] && RowEntry(k, found[k]) in ScanOf(rows))
  }

  lemma WrittenAt(rows: Rows, k: Key)
    requires k in rows
    ensures RowEntry(k, Persist(rows[k])) in WrittenEntries(rows)
  {
    hide Less, Apply;
    var s := WrittenEntries(rows);
    SortedLookup(s, k);
    assert k in PersistRows(rows);
    var i :| 0 <= i < |s| && s[i].key == k;
    assert Lookup(Apply(s), k) == Some(s[i].value);
    assert s[i] == RowEntry(k, Persist(rows[k]));
  }

  lemma WrittenIs(rows: Rows, i: nat)
    requires i < |WrittenEntries(rows)|
    ensures var e := WrittenEntries(rows)[i]; e.key in rows && e.value == Persist(rows[e.key])
  {
    hide Less, Apply;
    var s := WrittenEntries(rows);
    SortedLookup(s, s[i].key);
    assert Lookup(Apply(s), s[i].key) == Some(s[i].value);
    assert s[i].key in PersistRows(rows);
  }

  /** If every row fits, a scan yields exactly the rows, in order. */
  lemma ScanFits(rows: Rows)
    requires StorableRows(rows)
    ensures ScanOf(rows) == WrittenEntries(rows)
  {
    hide WrittenEntries, Storable;
    PersistStorable(rows);
    var s := WrittenEntries(rows);
    forall i | 0 <= i < |s| ensures Storable(s[i]) {
      WrittenIs(rows, i);
      assert s[i] == RowEntry(s[i].key, PersistRows(rows)[s[i].key]);
    }
    ScannedFit(s);
  }

  /** Whatever was written, no lookup finds a row that does not fit. */
  lemma FoundFits(rows: Rows, found: Rows)
    requires Finds(rows, found)
    ensures StorableRows(found)
  {
    hide WrittenEntries, Persist;
    forall k | k in found ensures Storable(RowEntry(k, found[k])) {
      if !(k in rows && 0 < |k| < TWO16) {
        ScannedStorable(WrittenEntries(rows), RowEntry(k, found[k]));
      }
    }
  }

  /** If every row fits, lookups find exactly the rows. */
  lemma FoundExact(rows: Rows, found: Rows)
    requires Finds(rows, found) && StorableRows(rows)
    ensures found == PersistRows(rows)
  {
    hide ScanOf;
    ScanFits(rows);
    PersistStorable(rows);
    forall k ensures Lookup(found, k) == Lookup(PersistRows(rows), k) {
      if k in rows {
        assert Storable(RowEntry(k, rows[k])) && Storable(RowEntry(k, PersistRows(rows)[k]));
      } else if k in found {
        NotWritten(rows, k, found[k]);
      }
    }
    SameRows(found, PersistRows(rows));
  }

  lemma NotWritten(rows: Rows, k: Key, v: Value)
    requires k !in rows
    ensures RowEntry(k, v) !in WrittenEntries(rows)
  {
    hide WrittenEntries;
    var s := WrittenEntries(rows);
    if RowEntry(k, v) in s {
      var i :| 0 <= i < |s| && s[i] == RowEntry(k, v);
      WrittenIs(rows, i);
    }
  }

  /** What lookups find at least. */
  function ShortRows(rows: Rows): Rows {
    map k | k in rows && 0 < |k| < TWO16 :: KeptValue(Persist(rows[k]))
  }

  lemma ShortRowsFound(rows: Rows)
    ensures Finds(rows, ShortRows(rows))
  {
    hide KeptValue, Persist;
  }
}
