/** How the memtable and the immutable memtables stand for the WALs merged since the last L0
    flush: consecutive id ranges, none empty, none missing. */
module MemChain {
  import opened Types
  import opened History
  import opened DbStates

  /** The last WAL id below the i-th immutable memtable; `base` is the last WAL id in L0. */
  function Lo(imms: seq<ImmMem>, base: nat, i: nat): nat
    requires i < |imms|
  {
    if i + 1 < |imms| then imms[i + 1].lastWal else base
  }

  function Top(imms: seq<ImmMem>, base: nat): nat {
    if imms == [] then base else imms[0].lastWal
  }

  ghost predicate ImmAt(imms: seq<ImmMem>, base: nat, frozen: seq<seq<RowEntry>>, merged: nat, i: nat)
    requires i < |imms| && merged <= |frozen|
  {
    && Lo(imms, base, i) < imms[i].lastWal <= merged
    && Holding(frozen, Lo(imms, base, i), imms[i].lastWal, imms[i].rows)
  }

  /** The WALs base + 1, ..., merged, cut into the immutable memtables and the memtable. What each
      holds is exact if the writes in its WALs fit. */
  ghost predicate MemOK(mem: Memtable, imms: seq<ImmMem>, base: nat, frozen: seq<seq<RowEntry>>, merged: nat) {
    && merged <= |frozen|
    && (forall i :: 0 <= i < |imms| ==> ImmAt(imms, base, frozen, merged, i))
    && Top(imms, base) <= merged
    && Holding(frozen, Top(imms, base), merged, mem.rows)
    && (mem.lastWal.Some? ==> mem.lastWal.value == merged && Top(imms, base) < merged)
  }

  lemma MemFrame(mem: Memtable, imms: seq<ImmMem>, base: nat, frozen: seq<seq<RowEntry>>, frozen': seq<seq<RowEntry>>,
                 merged: nat)
    requires MemOK(mem, imms, base, frozen, merged)
    requires merged <= |frozen'| && frozen[..merged] == frozen'[..merged]
    ensures MemOK(mem, imms, base, frozen', merged)
  {
    forall i | 0 <= i < |imms| ensures ImmAt(imms, base, frozen', merged, i) {
      assert ImmAt(imms, base, frozen, merged, i);
      HoldingFrame(frozen, frozen', Lo(imms, base, i), imms[i].lastWal, merged, imms[i].rows);
    }
    HoldingFrame(frozen, frozen', Top(imms, base), merged, merged, mem.rows);
  }

  /** Merging the next WAL, held as written or persisted; `lastWal` may stay unset, as in replay. */
  lemma MergeNext(mem: Memtable, imms: seq<ImmMem>, base: nat, frozen: seq<seq<RowEntry>>, merged: nat, rows: Rows,
                  last: Option<nat>)
    requires MemOK(mem, imms, base, frozen, merged) && merged < |frozen|
    requires Holding(frozen, merged, merged + 1, rows)
    requires last.None? || last == Some(merged + 1)
    ensures MemOK(Memtable(mem.rows + rows, last), imms, base, frozen, merged + 1)
  {
    hide Holding;
    HoldingUnion(frozen, Top(imms, base), merged, merged + 1, mem.rows, rows);
    var next := merged + 1;
    forall i | 0 <= i < |imms| ensures ImmAt(imms, base, frozen, next, i) {
      assert ImmAt(imms, base, frozen, merged, i);
    }
  }

  lemma FreezeNext(mem: Memtable, imms: seq<ImmMem>, base: nat, frozen: seq<seq<RowEntry>>, merged: nat)
    requires MemOK(mem, imms, base, frozen, merged) && Top(imms, base) < merged
    ensures MemOK(Memtable(map[], None), [ImmMem(mem.rows, merged)] + imms, base, frozen, merged)
  {
    hide Holding;
    HoldingNone(frozen, merged);
    var imms' := [ImmMem(mem.rows, merged)] + imms;
    forall i | 0 <= i < |imms'| ensures ImmAt(imms', base, frozen, merged, i) {
      if i > 0 {
        assert ImmAt(imms, base, frozen, merged, i - 1);
        assert imms'[i] == imms[i - 1];
        assert Lo(imms', base, i) == Lo(imms, base, i - 1);
      } else {
        assert Lo(imms', base, 0) == Top(imms, base);
      }
    }
  }

  /** The table written with the oldest immutable memtable holds the next stretch of WALs after `base`. */
  lemma FlushNext(mem: Memtable, imms: seq<ImmMem>, base: nat, frozen: seq<seq<RowEntry>>, merged: nat, held: Rows)
    requires MemOK(mem, imms, base, frozen, merged) && imms != [] && ReadsBack(imms[|imms| - 1].rows, held)
    ensures var oldest := imms[|imms| - 1];
      && base < oldest.lastWal <= merged
      && HoldingPersisted(frozen, base, oldest.lastWal, held)
      && (WalsStorable(frozen, base, oldest.lastWal) ==> StorableRows(oldest.rows))
      && MemOK(mem, imms[..|imms| - 1], oldest.lastWal, frozen, merged)
  {
    var oldest, imms' := imms[|imms| - 1], imms[..|imms| - 1];
    assert ImmAt(imms, base, frozen, merged, |imms| - 1);
    StoredHolding(frozen, base, oldest.lastWal, oldest.rows, held);
    hide Holding, HoldingPersisted, ReadsBack, WalsStorable, StorableRows;
    forall i | 0 <= i < |imms'| ensures ImmAt(imms', oldest.lastWal, frozen, merged, i) {
      assert ImmAt(imms, base, frozen, merged, i);
      assert Lo(imms', oldest.lastWal, i) == Lo(imms, base, i);
    }
    assert Top(imms', oldest.lastWal) == Top(imms, base);
  }

  // ---- meaning

  function ImmRows(imms: seq<ImmMem>): Rows {
    if imms == [] then map[] else ImmRows(imms[1..]) + imms[0].rows
  }

  lemma {:induction false} ImmMeaning(imms: seq<ImmMem>, base: nat, frozen: seq<seq<RowEntry>>, merged: nat)
    requires merged <= |frozen| && forall i :: 0 <= i < |imms| ==> ImmAt(imms, base, frozen, merged, i)
    ensures base <= Top(imms, base) && (imms != [] ==> Top(imms, base) <= merged)
    ensures Top(imms, base) <= |frozen| ==> Holding(frozen, base, Top(imms, base), ImmRows(imms))
    decreases |imms|
  {
    hide Holding;
    if imms != [] {
      var rest := imms[1..];
      forall i | 0 <= i < |rest| ensures ImmAt(rest, base, frozen, merged, i) {
        assert ImmAt(imms, base, frozen, merged, i + 1);
        assert rest[i] == imms[i + 1] && Lo(rest, base, i) == Lo(imms, base, i + 1);
      }
      ImmMeaning(rest, base, frozen, merged);
      assert ImmAt(imms, base, frozen, merged, 0);
      assert Lo(imms, base, 0) == Top(rest, base);
      HoldingUnion(frozen, base, Top(rest, base), Top(imms, base), ImmRows(rest), imms[0].rows);
    } else if base <= |frozen| {
      HoldingNone(frozen, base);
    }
  }

  /** The memtables together hold exactly the merged WALs above `base`, if the writes in them fit. */
  lemma MemMeaning(mem: Memtable, imms: seq<ImmMem>, base: nat, frozen: seq<seq<RowEntry>>, merged: nat)
    requires MemOK(mem, imms, base, frozen, merged)
    ensures base <= merged
    ensures Holding(frozen, base, merged, ImmRows(imms) + mem.rows)
  {
    hide Holding;
    ImmMeaning(imms, base, frozen, merged);
    HoldingUnion(frozen, base, Top(imms, base), merged, ImmRows(imms), mem.rows);
  }
}
