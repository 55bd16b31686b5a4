/** The client's view: a sequence of puts and deletes, cut into WALs when the writer freezes
    them. Every claim about the engine is measured against these definitions. */
module History {
  import opened Types

  /** The table that a sequence of writes leaves, later writes winning. */
  function Apply(ops: seq<RowEntry>): Rows {
    if ops == [] then map[]
    else Apply(ops[..|ops| - 1])[ops[|ops| - 1].key := ops[|ops| - 1].value]
  }

  /** The last write to a key, found without building a table. */
  function LastWrite(ops: seq<RowEntry>, k: Key): Option<Value> {
    if ops == [] then None
    else if ops[|ops| - 1].key == k then Some(ops[|ops| - 1].value)
    else LastWrite(ops[..|ops| - 1], k)
  }

  lemma {:induction false} ApplyIsLastWrite(ops: seq<RowEntry>, k: Key)
    ensures Lookup(Apply(ops), k) == LastWrite(ops, k)
  {
    if ops != [] {
      ApplyIsLastWrite(ops[..|ops| - 1], k);
    }
  }

  /** One more write on top of a table, in either order of bracketing. */
  lemma ApplySnoc(m: Rows, ops: seq<RowEntry>, e: RowEntry)
    ensures m + Apply(ops + [e]) == (m + Apply(ops))[e.key := e.value]
  {
    assert (ops + [e])[..|ops|] == ops;
  }

  lemma {:induction false} ApplyConcat(a: seq<RowEntry>, b: seq<RowEntry>)
    ensures Apply(a + b) == Apply(a) + Apply(b)
  {
    if b == [] {
      assert a + b == a;
    } else {
      ApplyConcat(a, b[..|b| - 1]);
      assert (a + b)[..|a + b| - 1] == a + b[..|b| - 1];
    }
  }

  /** The rows of the WALs with ids in (lo, hi]; WAL id i holds the writes `wals[i - 1]`. */
  function WalRows(wals: seq<seq<RowEntry>>, lo: nat, hi: nat): Rows
    requires lo <= hi <= |wals|
  {
    if lo == hi then map[] else WalRows(wals, lo, hi - 1) + Apply(wals[hi - 1])
  }

  lemma {:induction false} WalRowsSplit(wals: seq<seq<RowEntry>>, lo: nat, mid: nat, hi: nat)
    requires lo <= mid <= hi <= |wals|
    ensures WalRows(wals, lo, hi) == WalRows(wals, lo, mid) + WalRows(wals, mid, hi)
    decreases hi
  {
    hide Apply;
    if mid < hi {
      WalRowsSplit(wals, lo, mid, hi - 1);
      UnionAssoc(WalRows(wals, lo, mid), WalRows(wals, mid, hi - 1), Apply(wals[hi - 1]));
    }
  }

  /** Cutting or extending the list of WALs beyond `hi` does not change what (lo, hi] holds. */
  lemma {:induction false} WalRowsFrame(wals: seq<seq<RowEntry>>, wals': seq<seq<RowEntry>>, lo: nat, hi: nat)
    requires lo <= hi <= |wals| && hi <= |wals'|
    requires wals[..hi] == wals'[..hi]
    ensures WalRows(wals, lo, hi) == WalRows(wals', lo, hi)
    decreases hi
  {
    if lo < hi {
      assert wals[..hi - 1] == wals[..hi][..hi - 1] == wals'[..hi - 1];
      assert wals[hi - 1] == wals[..hi][hi - 1] == wals'[hi - 1];
      WalRowsFrame(wals, wals', lo, hi - 1);
    }
  }

  // ---- what the engine holds of the WALs (lo, hi]

  ghost predicate AllStorable(ops: seq<RowEntry>) {
    forall e :: e in ops ==> Storable(e)
  }

  ghost predicate WalsStorable(wals: seq<seq<RowEntry>>, lo: nat, hi: nat)
    requires lo <= hi <= |wals|
  {
    forall i :: lo <= i < hi ==> AllStorable(wals[i])
  }

  /** The rows stand for these WALs, provided that every write in them fits. */
  ghost predicate Holding(wals: seq<seq<RowEntry>>, lo: nat, hi: nat, held: Rows)
    requires lo <= hi <= |wals|
  {
    WalsStorable(wals, lo, hi) ==> Stands(WalRows(wals, lo, hi), held)
  }

  /** As Holding, for rows that went through a table. */
  ghost predicate HoldingPersisted(wals: seq<seq<RowEntry>>, lo: nat, hi: nat, held: Rows)
    requires lo <= hi <= |wals|
  {
    WalsStorable(wals, lo, hi) ==> held == PersistRows(WalRows(wals, lo, hi))
  }

  lemma {:induction false} ApplyStorable(ops: seq<RowEntry>)
    requires AllStorable(ops)
    ensures StorableRows(Apply(ops))
  {
    if ops != [] {
      var n := |ops| - 1;
      ApplyStorable(ops[..n]);
      assert Storable(ops[n]);
      forall k | k in Apply(ops) ensures Storable(RowEntry(k, Apply(ops)[k])) {
        if k == ops[n].key { assert RowEntry(k, Apply(ops)[k]) == ops[n]; }
      }
    }
  }

  lemma {:induction false} WalRowsStorable(wals: seq<seq<RowEntry>>, lo: nat, hi: nat)
    requires lo <= hi <= |wals| && WalsStorable(wals, lo, hi)
    ensures StorableRows(WalRows(wals, lo, hi))
    decreases hi
  {
    hide AllStorable, Apply, Storable;
    if lo < hi {
      WalRowsStorable(wals, lo, hi - 1);
      ApplyStorable(wals[hi - 1]);
      StorableUnion(WalRows(wals, lo, hi - 1), Apply(wals[hi - 1]));
    }
  }

  lemma HoldingUnion(wals: seq<seq<RowEntry>>, lo: nat, mid: nat, hi: nat, a: Rows, b: Rows)
    requires lo <= mid <= hi <= |wals| && Holding(wals, lo, mid, a) && Holding(wals, mid, hi, b)
    ensures Holding(wals, lo, hi, a + b)
  {
    hide Stands, WalRows, AllStorable;
    if WalsStorable(wals, lo, hi) {
      WalRowsSplit(wals, lo, mid, hi);
      StandsUnion(WalRows(wals, lo, mid), a, WalRows(wals, mid, hi), b);
    }
  }

  lemma PersistedUnion(wals: seq<seq<RowEntry>>, lo: nat, mid: nat, hi: nat, a: Rows, b: Rows)
    requires lo <= mid <= hi <= |wals| && HoldingPersisted(wals, lo, mid, a) && HoldingPersisted(wals, mid, hi, b)
    ensures HoldingPersisted(wals, lo, hi, a + b)
  {
    hide WalRows, AllStorable, PersistRows;
    if WalsStorable(wals, lo, hi) {
      WalRowsSplit(wals, lo, mid, hi);
      PersistUnion(WalRows(wals, lo, mid), WalRows(wals, mid, hi));
    }
  }

  lemma HoldingFrame(wals: seq<seq<RowEntry>>, wals': seq<seq<RowEntry>>, lo: nat, hi: nat, n: nat, held: Rows)
    requires lo <= hi <= n <= |wals| && n <= |wals'| && wals[..n] == wals'[..n]
    ensures Holding(wals, lo, hi, held) == Holding(wals', lo, hi, held)
    ensures HoldingPersisted(wals, lo, hi, held) == HoldingPersisted(wals', lo, hi, held)
  {
    hide Stands, WalRows, AllStorable, PersistRows;
    assert wals[..hi] == wals[..n][..hi] == wals'[..hi];
    WalRowsFrame(wals, wals', lo, hi);
    forall i | lo <= i < hi ensures wals[i] == wals'[i] {
      assert wals[..hi][i] == wals[i];
    }
  }

  lemma StorableFrame(wals: seq<seq<RowEntry>>, wals': seq<seq<RowEntry>>, lo: nat, hi: nat, n: nat)
    requires lo <= hi <= n <= |wals| && n <= |wals'| && wals[..n] == wals'[..n]
    ensures WalsStorable(wals, lo, hi) == WalsStorable(wals', lo, hi)
  {
    hide AllStorable;
    forall i | lo <= i < hi ensures wals[i] == wals'[i] {
      assert wals[..n][i] == wals[i];
    }
  }

  lemma PersistedStands(wals: seq<seq<RowEntry>>, lo: nat, hi: nat, held: Rows)
    requires lo <= hi <= |wals| && HoldingPersisted(wals, lo, hi, held)
    ensures Holding(wals, lo, hi, held)
  {
  }

  lemma HoldingNone(wals: seq<seq<RowEntry>>, n: nat)
    requires n <= |wals|
    ensures Holding(wals, n, n, map[]) && HoldingPersisted(wals, n, n, map[])
  {
  }

  /** A WAL as the client wrote it. */
  lemma HoldingOne(wals: seq<seq<RowEntry>>, n: nat)
    requires n < |wals|
    ensures Holding(wals, n, n + 1, Apply(wals[n]))
  {
    assert map[] + Apply(wals[n]) == Apply(wals[n]);
    assert WalRows(wals, n, n + 1) == WalRows(wals, n, n) + Apply(wals[n]);
  }

  /** A table written with rows that stand for the WALs reads back as these, persisted. */
  lemma StoredHolding(wals: seq<seq<RowEntry>>, lo: nat, hi: nat, rows: Rows, held: Rows)
    requires lo <= hi <= |wals| && Holding(wals, lo, hi, rows) && ReadsBack(rows, held)
    ensures HoldingPersisted(wals, lo, hi, held) && (WalsStorable(wals, lo, hi) ==> StorableRows(rows))
  {
    hide Stands, WalRows, AllStorable, PersistRows, StorableRows;
    if WalsStorable(wals, lo, hi) {
      WalRowsStorable(wals, lo, hi);
      StandsStorable(WalRows(wals, lo, hi), rows);
      StandsPersist(WalRows(wals, lo, hi), rows);
    }
  }

  function Flatten<T>(parts: seq<seq<T>>): seq<T> {
    if parts == [] then [] else Flatten(parts[..|parts| - 1]) + parts[|parts| - 1]
  }

  lemma {:induction false} FlattenRows(wals: seq<seq<RowEntry>>)
    ensures Apply(Flatten(wals)) == WalRows(wals, 0, |wals|)
  {
    if wals != [] {
      var init := wals[..|wals| - 1];
      FlattenRows(init);
      ApplyConcat(Flatten(init), wals[|wals| - 1]);
      WalRowsFrame(init, wals, 0, |init|);
    }
  }

  lemma {:induction false} FlattenPrefix<T>(a: seq<seq<T>>, b: seq<seq<T>>)
    requires a <= b
    ensures Flatten(a) <= Flatten(b)
  {
    if |a| < |b| {
      FlattenPrefix(a, b[..|b| - 1]);
    } else {
      assert a == b;
    }
  }

  lemma FlattenSnoc<T>(parts: seq<seq<T>>, last: seq<T>)
    ensures Flatten(parts + [last]) == Flatten(parts) + last
  {
    assert (parts + [last])[..|parts|] == parts;
  }

  lemma {:induction false} FlattenConcat<T>(a: seq<seq<T>>, b: seq<seq<T>>)
    ensures Flatten(a + b) == Flatten(a) + Flatten(b)
  {
    if b == [] {
      assert a + b == a;
    } else {
      var init := b[..|b| - 1];
      FlattenConcat(a, init);
      assert (a + b)[..|a + b| - 1] == a + init;
      assert Flatten(a) + Flatten(init) + b[|b| - 1] == Flatten(a) + (Flatten(init) + b[|b| - 1]);
    }
  }

  lemma {:induction false} FlattenMember<T>(parts: seq<seq<T>>, i: nat, x: T)
    requires i < |parts| && x in parts[i]
    ensures x in Flatten(parts)
  {
    if i < |parts| - 1 {
      FlattenMember(parts[..|parts| - 1], i, x);
    }
  }

  /** If every write in a prefix of the WALs fits, so does every write in each of them. */
  lemma FlattenStorable(wals: seq<seq<RowEntry>>, n: nat, lo: nat, hi: nat)
    requires lo <= hi <= n <= |wals| && AllStorable(Flatten(wals[..n]))
    ensures WalsStorable(wals, lo, hi)
  {
    hide Storable;
    forall i, e | lo <= i < hi && e in wals[i] ensures Storable(e) {
      FlattenMember(wals[..n], i, e);
    }
  }
}
