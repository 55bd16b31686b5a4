/** The in-memory table with its running size counter (slatedb/table/kvtable.go). */
module KVTables {
  import opened Types
  import opened History

  /** Length of the key plus the stored value bytes: a kind byte and, unless it is a tombstone, the value. */
  function EntrySize(k: Key, v: Value): nat {
    |k| + match v case Tombstone => 1 case KeyValue(bytes) => 1 + |bytes|
  }

  ghost function AnyKey(m: Rows): Key
    requires m != map[]
    ensures AnyKey(m) in m
  {
    assert m.Keys == {} ==> m == map[];
    var k :| k in m.Keys; k
  }

  /** The sum of the entry sizes, taken in any order. */
  ghost function RowsSize(m: Rows): nat
    decreases m.Keys
  {
    if m == map[] then 0 else EntrySize(AnyKey(m), m[AnyKey(m)]) + RowsSize(m - {AnyKey(m)})
  }

  lemma {:induction false} RowsSizeRemove(m: Rows, k: Key)
    requires k in m
    ensures RowsSize(m) == EntrySize(k, m[k]) + RowsSize(m - {k})
    decreases m.Keys
  {
    hide EntrySize, AnyKey;
    var j := AnyKey(m);
    if j != k {
      RowsSizeRemove(m - {j}, k);
      RowsSizeRemove(m - {k}, j);
      assert m - {j} - {k} == m - {k} - {j};
    }
  }

  /** Every entry takes at least one byte, so size zero means no rows at all. */
  lemma SizeZeroIffEmpty(m: Rows)
    ensures RowsSize(m) == 0 <==> m == map[]
  {
    if m != map[] {
      var k :| k in m;
      RowsSizeRemove(m, k);
    }
  }

  lemma RowsSizeUpdate(m: Rows, k: Key, v: Value)
    ensures RowsSize(m[k := v]) == RowsSize(m) + EntrySize(k, v) - if k in m then EntrySize(k, m[k]) else 0
  {
    RowsSizeRemove(m[k := v], k);
    assert m[k := v] - {k} == m - {k};
    if k in m {
      RowsSizeRemove(m, k);
    } else {
      assert m - {k} == m;
    }
  }

  /** What one row takes: its key, a kind byte, and its value unless it is a tombstone. */
  lemma SizeOfOne(k: Key, b: Bytes)
    ensures RowsSize(map[k := KeyValue(b)]) == |k| + 1 + |b|
    ensures RowsSize(map[k := Tombstone]) == |k| + 1
  {
    RowsSizeUpdate(map[], k, KeyValue(b));
    RowsSizeUpdate(map[], k, Tombstone);
    assert map[][k := KeyValue(b)] == map[k := KeyValue(b)] && map[][k := Tombstone] == map[k := Tombstone];
  }

  /** Rows of different keys add up, and overwriting never takes more than both. */
  lemma {:induction false} SizeOfUnion(a: Rows, b: Rows)
    ensures RowsSize(a + b) <= RowsSize(a) + RowsSize(b)
    ensures a.Keys !! b.Keys ==> RowsSize(a + b) == RowsSize(a) + RowsSize(b)
    decreases b.Keys
  {
    hide EntrySize, RowsSize;
    if b == map[] {
      assert a + b == a;
      SizeZeroIffEmpty(b);
    } else {
      var k :| k in b;
      var rest := b - {k};
      SizeOfUnion(a, rest);
      assert a + b == (a + rest)[k := b[k]];
      RowsSizeUpdate(a + rest, k, b[k]);
      RowsSizeRemove(b, k);
    }
  }

  class KVTable {
    var rows: Rows
    var size: int

    ghost predicate Valid()
      reads this
    {
      size == RowsSize(rows)
    }

    constructor ()
      ensures Valid() && rows == map[]
    {
      rows, size := map[], 0;
    }

    method ExistingKVSize(key: Key) returns (n: nat)
      ensures n == if key in rows then EntrySize(key, rows[key]) else 0
    {
      if key in rows {
        n := EntrySize(key, rows[key]);
      } else {
        n := 0;
      }
    }

    /** The counter changes by the new entry's size less the old one's, and stays the exact sum. */
    method Put(entry: RowEntry) returns (newSize: nat)
      requires Valid()
      modifies this
      ensures Valid() && rows == old(rows)[entry.key := entry.value]
      ensures newSize == EntrySize(entry.key, entry.value)
    {
      var oldSize := ExistingKVSize(entry.key);
      RowsSizeUpdate(rows, entry.key, entry.value);
      rows := rows[entry.key := entry.value];
      newSize := EntrySize(entry.key, entry.value);
      size := size + newSize - oldSize;
    }

    /** Puts the rows of another table one by one, as flushing a WAL into the memtable does. */
    method PutAll(entries: seq<RowEntry>)
      requires Valid()
      modifies this
      ensures Valid() && rows == old(rows) + Apply(entries)
    {
      for i := 0 to |entries|
        invariant Valid() && rows == old(rows) + Apply(entries[..i])
      {
        hide Apply;
        var _ := Put(entries[i]);
        assert entries[..i + 1] == entries[..i] + [entries[i]];
        ApplySnoc(old(rows), entries[..i], entries[i]);
      }
      assert entries[..|entries|] == entries;
    }
  }
}
