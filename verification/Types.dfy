/** Keys, values and table contents (internal/types/types.go), and what writing a value to an
    SSTable does to it: AddValue turns an empty value into a tombstone. */
module Types {
  datatype Option<+T> = None | Some(value: T)

  const TWO16: nat := 0x1_0000
  const TWO32: nat := 0x1_0000_0000
  const TWO64: nat := 0x1_0000_0000_0000_0000

  type Byte = x: int | 0 <= x < 256
  type Bytes = seq<Byte>
  type Key = Bytes

  datatype Value = Tombstone | KeyValue(bytes: Bytes)
  datatype RowEntry = RowEntry(key: Key, value: Value)

  /** The contents of a WAL, a memtable or an SSTable. In `a + b` the newer table is `b`. */
  type Rows = map<Key, Value>

  function Lookup(m: Rows, k: Key): Option<Value> {
    if k in m then Some(m[k]) else None
  }

  lemma SameRows(a: Rows, b: Rows)
    requires forall k :: Lookup(a, k) == Lookup(b, k)
    ensures a == b
  {
    forall k ensures k in a <==> k in b { assert Lookup(a, k) == Lookup(b, k); }
    forall k | k in a ensures a[k] == b[k] { assert Lookup(a, k) == Lookup(b, k); }
  }

  /** What DB.Get answers. */
  datatype Answer = NotFound | Found(bytes: Bytes)

  function CheckValue(v: Option<Value>): Answer {
    match v
    case Some(KeyValue(bytes)) => Found(bytes)
    case _ => NotFound
  }

  /** What the answer says of the row found: its bytes, or that there is none. */
  ghost predicate Tells(row: Option<Value>, r: Answer) {
    && (forall b: Bytes :: row == Some(KeyValue(b)) ==> r == Found(b))
    && (row == Some(Tombstone) || row.None? ==> r == NotFound)
  }

  /** AddValue: a row with an empty value is stored as a tombstone. */
  function Persist(v: Value): Value {
    if v == KeyValue([]) then Tombstone else v
  }

  function PersistRows(m: Rows): Rows {
    map k | k in m :: Persist(m[k])
  }

  // ---- what fits a table

  /** A row whose lengths fit their fields in a block: 16 bits for the key, 32 for the value. */
  predicate Storable(e: RowEntry) {
    0 < |e.key| < TWO16 && (e.value.KeyValue? ==> |e.value.bytes| < TWO32)
  }

  ghost predicate StorableRows(m: Rows) {
    forall k :: k in m ==> Storable(RowEntry(k, m[k]))
  }

  /** If every row fits, a table written with `rows` reads back as `held`. */
  ghost predicate ReadsBack(rows: Rows, held: Rows) {
    StorableRows(rows) ==> held == PersistRows(rows)
  }

  lemma PersistStorable(rows: Rows)
    requires StorableRows(rows)
    ensures StorableRows(PersistRows(rows))
  {
  }

  lemma StorableUnion(a: Rows, b: Rows)
    requires StorableRows(a) && StorableRows(b)
    ensures StorableRows(a + b)
  {
  }

  // ---- what the engine may hold

  /** `held` is what the engine may hold for a table the client wrote as `written`:
      each row is either as written or as written and persisted. */
  ghost predicate Stands(written: Rows, held: Rows) {
    && held.Keys == written.Keys
    && forall k :: k in written ==> held[k] == written[k] || held[k] == Persist(written[k])
  }

  lemma StandsUnion(a: Rows, a': Rows, b: Rows, b': Rows)
    requires Stands(a, a') && Stands(b, b')
    ensures Stands(a + b, a' + b')
  {
  }

  lemma UnionAssoc(a: Rows, b: Rows, c: Rows)
    ensures (a + b) + c == a + (b + c)
  {
  }

  lemma PersistUnion(a: Rows, b: Rows)
    ensures PersistRows(a + b) == PersistRows(a) + PersistRows(b)
  {
  }

  lemma PersistIdempotent(a: Rows)
    ensures PersistRows(PersistRows(a)) == PersistRows(a)
  {
  }

  lemma StandsPersist(a: Rows, a': Rows)
    requires Stands(a, a')
    ensures PersistRows(a') == PersistRows(a)
  {
    assert PersistRows(a').Keys == PersistRows(a).Keys;
  }

  lemma StandsStorable(a: Rows, a': Rows)
    requires Stands(a, a') && StorableRows(a)
    ensures StorableRows(a')
  {
    forall k | k in a' ensures Storable(RowEntry(k, a'[k])) {
      assert Storable(RowEntry(k, a[k]));
    }
  }
}
