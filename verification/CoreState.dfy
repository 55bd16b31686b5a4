/** The part of the database state that manifests carry (CoreDBState in slatedb/state/db_state.go):
    the L0 tables, the sorted runs and the WAL counters. */
module CoreState {
  import opened Types
  import opened History
  import opened Keys

  /** An L0 table: its ULID, as a number, what lookups in it find, and what a scan of it yields. A table
      is never uploaded again, so these may stand beside the handle. */
  datatype Sst = Sst(id: nat, rows: Rows, scan: seq<RowEntry>)

  /** Lookups and a scan agree, as they do if everything written fits. */
  ghost predicate Plain(t: Sst) {
    Sorted(t.scan) && Apply(t.scan) == t.rows && [] !in t.rows
  }

  /** A sorted run and what lookups in it find. `sources` is a history variable: the ids of the tables its
      job read, newest first. */
  datatype SortedRun = SortedRun(id: nat, rows: Rows, sources: seq<nat>)

  /** `l0` and `compacted` are listed newest first. */
  datatype Core = Core(
    l0LastCompacted: Option<nat>,
    l0: seq<Sst>,
    compacted: seq<SortedRun>,
    nextWal: nat,
    lastCompactedWal: nat)

  const NewCore := Core(None, [], [], 1, 0)

  function Ids(l0: seq<Sst>): seq<nat> {
    seq(|l0|, i requires 0 <= i < |l0| => l0[i].id)
  }

  function L0Rows(l0: seq<Sst>): Rows {
    if l0 == [] then map[] else L0Rows(l0[1..]) + l0[0].rows
  }

  function RunRows(runs: seq<SortedRun>): Rows {
    if runs == [] then map[] else RunRows(runs[1..]) + runs[0].rows
  }

  /** Everything a lookup through L0 and then the runs can see. */
  function CoreRows(c: Core): Rows {
    RunRows(c.compacted) + L0Rows(c.l0)
  }

  /** The tables above the one with id `last`; both refreshes cut their L0 lists this way. */
  function TakeUntil(l0: seq<Sst>, last: Option<nat>): seq<Sst> {
    if l0 == [] || last == Some(l0[0].id) then [] else [l0[0]] + TakeUntil(l0[1..], last)
  }
}
