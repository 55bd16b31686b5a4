/** The writer's in-memory state and its steps (slatedb/state/db_state.go). */
module DbStates {
  import opened Types
  import opened History
  import opened CoreState
  import opened KVTables

  datatype ImmWal = ImmWal(id: nat, rows: Rows)
  datatype Memtable = Memtable(rows: Rows, lastWal: Option<nat>)
  datatype ImmMem = ImmMem(rows: Rows, lastWal: nat)

  /** `immWals` and `immMems` are deques with the newest table in front. */
  datatype State = State(wal: Rows, memtable: Memtable, immWals: seq<ImmWal>, immMems: seq<ImmMem>, core: Core)

  function NewState(core: Core): State {
    State(map[], Memtable(map[], None), [], [], core)
  }

  function WithPut(s: State, e: RowEntry): State {
    s.(wal := s.wal[e.key := e.value])
  }

  ghost function WithWalFrozen(s: State): State {
    if RowsSize(s.wal) == 0 then s
    else s.(wal := map[],
            immWals := [ImmWal(s.core.nextWal, s.wal)] + s.immWals,
            core := s.core.(nextWal := s.core.nextWal + 1))
  }

  function WithWalPopped(s: State): State
    requires s.immWals != []
  {
    s.(immWals := s.immWals[..|s.immWals| - 1])
  }

  /** flushImmWALToMemtable: the rows of the WAL win, and the memtable remembers its id. */
  function WithWalMerged(s: State, w: ImmWal): State {
    s.(memtable := Memtable(s.memtable.rows + w.rows, Some(w.id)))
  }

  function WithMemtableFrozen(s: State, walId: nat): State {
    s.(memtable := Memtable(map[], None), immMems := [ImmMem(s.memtable.rows, walId)] + s.immMems)
  }

  function WithL0Table(s: State, sst: Sst): State
    requires s.immMems != []
  {
    s.(immMems := s.immMems[..|s.immMems| - 1],
       core := s.core.(l0 := [sst] + s.core.l0, lastCompactedWal := s.immMems[|s.immMems| - 1].lastWal))
  }

  /** The writer takes the runs and the L0 cut-off from the compactor and keeps its newer tables. */
  function WithManifest(s: State, compactor: Core): State {
    s.(core := s.core.(l0LastCompacted := compactor.l0LastCompacted,
                       l0 := TakeUntil(s.core.l0, compactor.l0LastCompacted),
                       compacted := compactor.compacted))
  }

  lemma {:induction false} TakeUntilStep(l0: seq<Sst>, last: Option<nat>, i: nat)
    requires i <= |l0| && forall j :: 0 <= j < i ==> last != Some(l0[j].id)
    ensures i == |l0| || last == Some(l0[i].id) ==> TakeUntil(l0, last) == l0[..i]
    decreases |l0|
  {
    if i > 0 {
      TakeUntilStep(l0[1..], last, i - 1);
      assert l0[..i] == [l0[0]] + l0[1..][..i - 1];
    }
  }

  class DBState {
    var wal: KVTable
    var memtable: KVTable
    var memLastWal: Option<nat>
    var immWals: seq<ImmWal>
    var immMems: seq<ImmMem>
    var core: Core

    ghost predicate Valid()
      reads this, wal, memtable
    {
      wal != memtable && wal.Valid() && memtable.Valid()
    }

    ghost function View(): State
      reads this, wal, memtable
    {
      State(wal.rows, Memtable(memtable.rows, memLastWal), immWals, immMems, core)
    }

    constructor (core: Core)
      ensures Valid() && fresh(wal) && fresh(memtable) && View() == NewState(core)
    {
      wal := new KVTable();
      memtable := new KVTable();
      memLastWal, immWals, immMems, this.core := None, [], [], core;
    }

    method WalPut(entry: RowEntry)
      requires Valid()
      modifies wal
      ensures Valid() && View() == WithPut(old(View()), entry)
    {
      var _ := wal.Put(entry);
    }

    /** Skips the freeze exactly when the WAL holds no row. */
    method FreezeWAL() returns (id: Option<nat>)
      requires Valid()
      modifies this
      ensures Valid() && memtable == old(memtable) && (wal == old(wal) || fresh(wal))
      ensures View() == WithWalFrozen(old(View()))
      ensures id == if old(wal.rows) == map[] then None else Some(old(core).nextWal)
    {
      SizeZeroIffEmpty(wal.rows);
      if wal.size == 0 {
        return None;
      }
      id := Some(core.nextWal);
      immWals := [ImmWal(core.nextWal, wal.rows)] + immWals;
      wal := new KVTable();
      core := core.(nextWal := core.nextWal + 1);
    }

    method PopImmWAL()
      requires Valid() && immWals != []
      modifies this
      ensures Valid() && wal == old(wal) && memtable == old(memtable)
      ensures View() == WithWalPopped(old(View()))
    {
      immWals := immWals[..|immWals| - 1];
    }

    /** `entries` is what the WAL's iterator yields. */
    method FlushImmWALToMemtable(w: ImmWal, entries: seq<RowEntry>)
      requires Valid() && Apply(entries) == w.rows
      modifies this, memtable
      ensures Valid() && wal == old(wal) && memtable == old(memtable)
      ensures View() == WithWalMerged(old(View()), w)
    {
      memtable.PutAll(entries);
      memLastWal := Some(w.id);
    }

    method FreezeMemtable(walId: nat)
      requires Valid()
      modifies this
      ensures Valid() && wal == old(wal) && fresh(memtable)
      ensures View() == WithMemtableFrozen(old(View()), walId)
    {
      immMems := [ImmMem(memtable.rows, walId)] + immMems;
      memtable := new KVTable();
      memLastWal := None;
    }

    /** The caller read `imm` with OldestImmMemtable. Panics if there is no immutable memtable or the
        oldest one has another last WAL id; in the second case it is gone. */
    method MoveImmMemtableToL0(imm: ImmMem, sst: Sst) returns (ok: bool)
      requires Valid()
      modifies this
      ensures Valid() && wal == old(wal) && memtable == old(memtable)
      ensures ok <==> old(immMems) != [] && old(immMems)[|old(immMems)| - 1].lastWal == imm.lastWal
      ensures ok ==> View() == WithL0Table(old(View()), sst)
      ensures !ok ==>
        View() == old(View()).(immMems := if old(immMems) == [] then [] else old(immMems)[..|old(immMems)| - 1])
    {
      if |immMems| == 0 {
        return false;
      }
      var popped := immMems[|immMems| - 1];
      immMems := immMems[..|immMems| - 1];
      if popped.lastWal != imm.lastWal {
        return false;
      }
      core := core.(l0 := [sst] + core.l0, lastCompactedWal := imm.lastWal);
      return true;
    }

    method RefreshDBState(compactor: Core)
      requires Valid()
      modifies this
      ensures Valid() && wal == old(wal) && memtable == old(memtable)
      ensures View() == WithManifest(old(View()), compactor)
    {
      var newL0, i := [], 0;
      while i < |core.l0| && compactor.l0LastCompacted != Some(core.l0[i].id)
        invariant 0 <= i <= |core.l0| && newL0 == core.l0[..i]
        invariant forall j :: 0 <= j < i ==> compactor.l0LastCompacted != Some(core.l0[j].id)
        invariant unchanged(this)
      {
        newL0 := newL0 + [core.l0[i]];
        i := i + 1;
      }
      TakeUntilStep(core.l0, compactor.l0LastCompacted, i);
      core := core.(l0LastCompacted := compactor.l0LastCompacted, l0 := newL0, compacted := compactor.compacted);
    }
  }
}
