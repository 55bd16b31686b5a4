/** How a core state stands for the history of flushes: its L0 list is the newest flushes in
    order, and its runs cover all older ones. */
module Coverage {
  import opened Types
  import opened History
  import opened CoreState
  import opened CompactorStates
  import opened Protocol

  /** The last WAL id in the first n flushes. */
  function EndWal(F: seq<Flush>, n: nat): nat
    requires n <= |F|
  {
    if n == 0 then 0 else F[n - 1].lastWal
  }

  function LastId(F: seq<Flush>, n: nat): Option<nat>
    requires n <= |F|
  {
    if n == 0 then None else Some(F[n - 1].sst.id)
  }

  function FlushRows(F: seq<Flush>, lo: nat, hi: nat): Rows
    requires lo <= hi <= |F|
  {
    if lo == hi then map[] else FlushRows(F, lo, hi - 1) + F[hi - 1].sst.rows
  }

  ghost predicate UniqueIds(F: seq<Flush>) {
    forall i, j :: 0 <= i < j < |F| ==> F[i].sst.id != F[j].sst.id
  }

  lemma UniquePrefix(F: seq<Flush>, G: seq<Flush>)
    requires UniqueIds(G) && F <= G
    ensures UniqueIds(F)
  {
  }

  /** The list is the flushes lo, ..., hi - 1, newest first. */
  ghost predicate L0Matches(l0: seq<Sst>, F: seq<Flush>, lo: nat, hi: nat) {
    && lo <= hi <= |F|
    && |l0| == hi - lo
    && forall i :: 0 <= i < |l0| ==> l0[i] == F[hi - 1 - i].sst
  }

  ghost predicate IdsMatch(ids: seq<nat>, F: seq<Flush>, lo: nat, hi: nat) {
    && lo <= hi <= |F|
    && |ids| == hi - lo
    && forall i :: 0 <= i < |ids| ==> ids[i] == F[hi - 1 - i].sst.id
  }

  ghost predicate AllPlain(F: seq<Flush>, lo: nat, hi: nat)
    requires lo <= hi <= |F|
  {
    forall j :: lo <= j < hi ==> Plain(F[j].sst)
  }

  /** What a run over a stretch of flushes holds: rows that fit, and exactly theirs if lookups and scans
      agree in each of them. */
  ghost predicate RunHolds(rows: Rows, F: seq<Flush>, lo: nat, hi: nat)
    requires lo <= hi <= |F|
  {
    StorableRows(rows) && (AllPlain(F, lo, hi) ==> rows == PersistRows(FlushRows(F, lo, hi)))
  }

  /** The runs cover exactly the first n flushes, each run a consecutive stretch of them. */
  ghost predicate Covered(runs: seq<SortedRun>, F: seq<Flush>, n: nat)
    decreases |runs|
  {
    n <= |F| &&
    if runs == [] then n == 0 else
      var k := |runs[0].sources|;
      && 0 < k <= n
      && runs[0].id == |runs| - 1
      && IdsMatch(runs[0].sources, F, n - k, n)
      && RunHolds(runs[0].rows, F, n - k, n)
      && Covered(runs[1..], F, n - k)
  }

  /** A core state that knows the first p flushes and whose runs cover the first c. Run ids are 0, 1, ...
      and fit in 32 bits below the maximum. */
  ghost predicate CoreOK(core: Core, F: seq<Flush>, c: nat, p: nat) {
    && c <= p <= |F|
    && L0Matches(core.l0, F, c, p)
    && Covered(core.compacted, F, c)
    && |core.compacted| <= MAX_UINT32
    && core.l0LastCompacted == LastId(F, c)
    && core.lastCompactedWal == EndWal(F, p)
    && core.lastCompactedWal < core.nextWal
  }

  /** The j-th flush holds, persisted, the WALs after the previous flush up to its own last WAL, if
      their writes fit, and lookups and scans then agree. All of these WALs are durable. */
  ghost predicate FlushAt(F: seq<Flush>, frozen: seq<seq<RowEntry>>, durable: nat, j: nat)
    requires j < |F| && durable <= |frozen|
  {
    && EndWal(F, j) < F[j].lastWal <= durable
    && HoldingPersisted(frozen, EndWal(F, j), F[j].lastWal, F[j].sst.rows)
    && (WalsStorable(frozen, EndWal(F, j), F[j].lastWal) ==> Plain(F[j].sst))
  }

  ghost predicate FlushOK(F: seq<Flush>, frozen: seq<seq<RowEntry>>, durable: nat) {
    && durable <= |frozen|
    && forall j :: 0 <= j < |F| ==> FlushAt(F, frozen, durable, j)
  }

  // ---- more flushes do not disturb what is covered

  lemma {:induction false} FlushRowsFrame(F: seq<Flush>, F': seq<Flush>, lo: nat, hi: nat)
    requires F <= F' && lo <= hi <= |F|
    ensures FlushRows(F', lo, hi) == FlushRows(F, lo, hi)
    decreases hi
  {
    if lo < hi {
      FlushRowsFrame(F, F', lo, hi - 1);
    }
  }

  lemma {:induction false} CoveredFrame(runs: seq<SortedRun>, F: seq<Flush>, F': seq<Flush>, n: nat)
    requires F <= F' && Covered(runs, F, n)
    ensures Covered(runs, F', n)
    decreases |runs|
  {
    if runs != [] {
      var k := |runs[0].sources|;
      FlushRowsFrame(F, F', n - k, n);
      CoveredFrame(runs[1..], F, F', n - k);
    }
  }

  lemma CoreFrame(core: Core, F: seq<Flush>, F': seq<Flush>, c: nat, p: nat)
    requires F <= F' && CoreOK(core, F, c, p)
    ensures CoreOK(core, F', c, p)
  {
    CoveredFrame(core.compacted, F, F', c);
  }

  lemma CoreAnyNextWal(core: Core, F: seq<Flush>, c: nat, p: nat, n: nat)
    requires CoreOK(core, F, c, p) && core.lastCompactedWal < n
    ensures CoreOK(core.(nextWal := n), F, c, p)
  {
  }

  // ---- cutting and dropping L0 tables

  /** Cutting the list at the last compacted table leaves exactly the tables above it. */
  lemma {:induction false} TakeUntilMatches(l0: seq<Sst>, F: seq<Flush>, lo: nat, hi: nat, c: nat)
    requires L0Matches(l0, F, lo, hi) && UniqueIds(F) && lo <= c <= hi
    ensures L0Matches(TakeUntil(l0, LastId(F, c)), F, c, hi)
    decreases |l0|
  {
    if l0 != [] {
      assert l0[0] == F[hi - 1].sst;
      if c == hi {
      } else {
        assert l0[1..] == l0[1..|l0|];
        TakeUntilMatches(l0[1..], F, lo, hi - 1, c);
        assert LastId(F, c) != Some(l0[0].id);
      }
    }
  }

  lemma SplitL0(l0: seq<Sst>, F: seq<Flush>, lo: nat, mid: nat, hi: nat)
    requires L0Matches(l0, F, lo, hi) && lo <= mid <= hi
    ensures l0 == l0[..hi - mid] + l0[hi - mid..]
    ensures L0Matches(l0[..hi - mid], F, mid, hi) && L0Matches(l0[hi - mid..], F, lo, mid)
  {
  }

  lemma MatchesDistinct(l0: seq<Sst>, F: seq<Flush>, lo: nat, hi: nat)
    requires L0Matches(l0, F, lo, hi) && UniqueIds(F)
    ensures DistinctIds(l0)
  {
  }

  // ---- meaning

  lemma {:induction false} FlushRowsSplit(F: seq<Flush>, lo: nat, mid: nat, hi: nat)
    requires lo <= mid <= hi <= |F|
    ensures FlushRows(F, lo, hi) == FlushRows(F, lo, mid) + FlushRows(F, mid, hi)
    decreases hi
  {
    if mid < hi {
      FlushRowsSplit(F, lo, mid, hi - 1);
      UnionAssoc(FlushRows(F, lo, mid), FlushRows(F, mid, hi - 1), F[hi - 1].sst.rows);
    }
  }

  lemma {:induction false} L0RowsMatch(l0: seq<Sst>, F: seq<Flush>, lo: nat, hi: nat)
    requires L0Matches(l0, F, lo, hi)
    ensures L0Rows(l0) == FlushRows(F, lo, hi)
    decreases |l0|
  {
    if l0 != [] {
      assert L0Matches(l0[1..], F, lo, hi - 1);
      L0RowsMatch(l0[1..], F, lo, hi - 1);
    }
  }

  lemma {:induction false} EndWalRises(F: seq<Flush>, frozen: seq<seq<RowEntry>>, durable: nat, i: nat, j: nat)
    requires FlushOK(F, frozen, durable) && i <= j <= |F|
    ensures EndWal(F, i) <= EndWal(F, j) <= durable
    decreases j
  {
    if i < j {
      EndWalRises(F, frozen, durable, i, j - 1);
      assert FlushAt(F, frozen, durable, j - 1);
    } else if j > 0 {
      assert FlushAt(F, frozen, durable, j - 1);
    }
  }

  /** A stretch of flushes holds, persisted, exactly the writes of its WALs. */
  lemma {:induction false} FlushRowsAreWalRows(F: seq<Flush>, frozen: seq<seq<RowEntry>>, durable: nat, lo: nat,
                                               hi: nat)
    requires FlushOK(F, frozen, durable) && lo <= hi <= |F|
    ensures EndWal(F, lo) <= EndWal(F, hi) <= |frozen|
    ensures HoldingPersisted(frozen, EndWal(F, lo), EndWal(F, hi), FlushRows(F, lo, hi))
    decreases hi
  {
    hide HoldingPersisted;
    EndWalRises(F, frozen, durable, lo, hi);
    if lo < hi {
      FlushRowsAreWalRows(F, frozen, durable, lo, hi - 1);
      assert FlushAt(F, frozen, durable, hi - 1);
      PersistedUnion(frozen, EndWal(F, lo), EndWal(F, hi - 1), EndWal(F, hi), FlushRows(F, lo, hi - 1),
                     F[hi - 1].sst.rows);
    } else {
      HoldingNone(frozen, EndWal(F, lo));
    }
  }

  lemma PlainFlushes(F: seq<Flush>, frozen: seq<seq<RowEntry>>, durable: nat, lo: nat, hi: nat)
    requires FlushOK(F, frozen, durable) && lo <= hi <= |F|
    requires EndWal(F, hi) <= |frozen| && WalsStorable(frozen, 0, EndWal(F, hi))
    ensures AllPlain(F, lo, hi)
  {
    hide Plain, HoldingPersisted, AllStorable;
    forall j | lo <= j < hi ensures Plain(F[j].sst) {
      assert FlushAt(F, frozen, durable, j);
      EndWalRises(F, frozen, durable, j + 1, hi);
    }
  }

  lemma {:induction false} RunRowsCover(runs: seq<SortedRun>, F: seq<Flush>, frozen: seq<seq<RowEntry>>, durable: nat,
                                        n: nat)
    requires Covered(runs, F, n) && FlushOK(F, frozen, durable)
    requires EndWal(F, n) <= |frozen| && WalsStorable(frozen, 0, EndWal(F, n))
    ensures RunRows(runs) == FlushRows(F, 0, n)
    decreases |runs|
  {
    hide FlushOK;
    if runs != [] {
      var k := |runs[0].sources|;
      EndWalRises(F, frozen, durable, n - k, n);
      PlainFlushes(F, frozen, durable, n - k, n);
      RunRowsCover(runs[1..], F, frozen, durable, n - k);
      FlushRowsAreWalRows(F, frozen, durable, n - k, n);
      PersistIdempotent(WalRows(frozen, EndWal(F, n - k), EndWal(F, n)));
      FlushRowsSplit(F, 0, n - k, n);
    }
  }

  /** Looking up L0 and then the runs sees newest-wins over all the flushes the state knows, which
      is last-write-wins over all the WALs in them, provided that their writes fit. */
  lemma CoreMeaning(core: Core, F: seq<Flush>, frozen: seq<seq<RowEntry>>, durable: nat, c: nat, p: nat)
    requires CoreOK(core, F, c, p) && FlushOK(F, frozen, durable)
    ensures core.lastCompactedWal <= durable
    ensures core.lastCompactedWal <= |frozen| && WalsStorable(frozen, 0, core.lastCompactedWal) ==>
      CoreRows(core) == FlushRows(F, 0, p) == PersistRows(WalRows(frozen, 0, core.lastCompactedWal))
  {
    hide FlushOK, Covered, L0Matches, PersistRows, WalRows;
    EndWalRises(F, frozen, durable, 0, p);
    EndWalRises(F, frozen, durable, c, p);
    assert durable <= |frozen| by { FlushDurable(F, frozen, durable); }
    if WalsStorable(frozen, 0, core.lastCompactedWal) {
      RunRowsCover(core.compacted, F, frozen, durable, c);
      L0RowsMatch(core.l0, F, c, p);
      FlushRowsSplit(F, 0, c, p);
      FlushRowsAreWalRows(F, frozen, durable, 0, p);
    }
  }

  lemma FlushDurable(F: seq<Flush>, frozen: seq<seq<RowEntry>>, durable: nat)
    requires FlushOK(F, frozen, durable)
    ensures durable <= |frozen|
  {
  }

  lemma FlushPrefix(F: seq<Flush>, G: seq<Flush>, frozen: seq<seq<RowEntry>>, durable: nat)
    requires FlushOK(G, frozen, durable) && F <= G
    ensures FlushOK(F, frozen, durable)
  {
    forall j | 0 <= j < |F| ensures FlushAt(F, frozen, durable, j) {
      assert FlushAt(G, frozen, durable, j);
      assert EndWal(F, j) == EndWal(G, j);
    }
  }

  /** Cutting undurable WALs off the history, or adding WALs, leaves the flushes as they are. */
  lemma FlushFrame(F: seq<Flush>, frozen: seq<seq<RowEntry>>, frozen': seq<seq<RowEntry>>, durable: nat, durable': nat)
    requires FlushOK(F, frozen, durable) && durable <= durable' <= |frozen'| && frozen[..durable] == frozen'[..durable]
    ensures FlushOK(F, frozen', durable')
  {
    forall j | 0 <= j < |F|
      ensures FlushAt(F, frozen', durable', j)
    {
      assert FlushAt(F, frozen, durable, j);
      HoldingFrame(frozen, frozen', EndWal(F, j), F[j].lastWal, durable, F[j].sst.rows);
      StorableFrame(frozen, frozen', EndWal(F, j), F[j].lastWal, durable);
    }
  }
}
