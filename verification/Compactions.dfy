/** The CompactorState object, and runs of it under any scheduler (slatedb/compaction/state.go). */
module Compactions {
  import opened Types
  import opened CoreState
  import opened DbStates
  import opened CompactorStates

  class CompactorState {
    var db: Core
    var compactions: map<nat, Compaction>

    function View(): CState
      reads this
    {
      CState(db, compactions)
    }

    constructor (db: Core)
      ensures View() == CState(db, map[])
    {
      this.db, compactions := db, map[];
    }

    method SubmitCompaction(c: Compaction) returns (accepted: bool)
      modifies this
      ensures accepted <==> Accepts(old(View()), c)
      ensures accepted <==>
        && c.destination !in old(compactions)
        && (RunSource(c.destination) in c.sources || forall r :: r in old(db).compacted ==> r.id != c.destination)
      ensures View() == WithCompaction(old(View()), c)
    {
      if c.destination in compactions {
        return false;
      }
      for i := 0 to |db.compacted|
        invariant unchanged(this)
        invariant forall j :: 0 <= j < i ==> db.compacted[j].id != c.destination
      {
        if db.compacted[i].id == c.destination {
          if RunSource(c.destination) !in c.sources {
            return false;
          }
          break;
        }
      }
      compactions := compactions[c.destination := c];
      return true;
    }

    method RefreshDBState(writer: Core)
      modifies this
      ensures View() == WithWriterState(old(View()), writer)
    {
      var merged, i := [], 0;
      while i < |writer.l0| && db.l0LastCompacted != Some(writer.l0[i].id)
        invariant 0 <= i <= |writer.l0| && merged == writer.l0[..i]
        invariant forall j :: 0 <= j < i ==> db.l0LastCompacted != Some(writer.l0[j].id)
        invariant unchanged(this)
      {
        merged := merged + [writer.l0[i]];
        i := i + 1;
      }
      TakeUntilStep(writer.l0, db.l0LastCompacted, i);
      db := db.(l0 := merged, lastCompactedWal := writer.lastCompactedWal, nextWal := writer.nextWal);
    }

    /** Finishing does nothing unless the compaction is registered. It panics, and changes nothing,
        unless the new run list is in order and the compaction has a source. */
    method FinishCompaction(out: SortedRun) returns (ok: bool)
      modifies this
      ensures var s := old(View());
        ok <==> (out.id in s.compactions ==>
                   s.compactions[out.id].sources != [] && InIdOrder(WithFinished(s, out).db.compacted))
      ensures View() == if ok then WithFinished(old(View()), out) else old(View())
    {
      if out.id !in compactions {
        return true;
      }
      var c := compactions[out.id];
      var l0Ids, runIds := {}, {};
      for i := 0 to |c.sources|
        invariant unchanged(this)
        invariant l0Ids == SstIds(c.sources[..i]) && runIds == RunIds(c.sources[..i])
      {
        assert c.sources[..i + 1] == c.sources[..i] + [c.sources[i]];
        SourceIdsSnoc(c.sources[..i], c.sources[i]);
        match c.sources[i] {
          case SstSource(id) => l0Ids := l0Ids + {id};
          case RunSource(id) => runIds := runIds + {id};
        }
      }
      assert c.sources[..|c.sources|] == c.sources;
      runIds := runIds + {c.destination};

      var newL0 := [];
      for i := 0 to |db.l0|
        invariant unchanged(this)
        invariant newL0 == DropSsts(db.l0[..i], l0Ids)
      {
        assert db.l0[..i + 1][..i] == db.l0[..i];
        if db.l0[i].id !in l0Ids {
          newL0 := newL0 + [db.l0[i]];
        }
      }
      assert db.l0[..|db.l0|] == db.l0;

      var newCompacted := SpliceRuns(db.compacted, out, runIds);
      var inOrder := RunsInIdOrder(newCompacted);
      if !inOrder || |c.sources| == 0 {
        return false;
      }
      db := db.(l0 := newL0, compacted := newCompacted,
                l0LastCompacted := if c.sources[0].SstSource? then Some(c.sources[0].id) else db.l0LastCompacted);
      compactions := compactions - {out.id};
      return true;
    }
  }

  /** assertCompactedSRsInIDOrder */
  method RunsInIdOrder(runs: seq<SortedRun>) returns (ok: bool)
    ensures ok <==> InIdOrder(runs)
    ensures ok <==>
      && (forall i, j :: 0 <= i < j < |runs| ==> runs[i].id > runs[j].id)
      && (forall i :: 0 <= i < |runs| ==> runs[i].id < 0xFFFF_FFFF)
  {
    var last := MAX_UINT32;
    for i := 0 to |runs|
      invariant InIdOrder(runs[..i]) && last == if i == 0 then MAX_UINT32 else runs[i - 1].id
    {
      OrderSnoc(runs, i);
      if runs[i].id >= last {
        return false;
      }
      last := runs[i].id;
    }
    assert runs[..|runs|] == runs;
    return true;
  }

  lemma OrderSnoc(runs: seq<SortedRun>, i: nat)
    requires i < |runs| && InIdOrder(runs[..i])
    ensures InIdOrder(runs[..i + 1]) <==> runs[i].id < (if i == 0 then MAX_UINT32 else runs[i - 1].id)
    ensures InIdOrder(runs) ==> InIdOrder(runs[..i + 1])
  {
    var s, t := runs[..i], runs[..i + 1];
    assert t == s + [runs[i]];
    if InIdOrder(runs) {
      assert forall a, b :: 0 <= a < b < |t| ==> t[a] == runs[a] && t[b] == runs[b] && runs[a].id > runs[b].id;
    }
    if i > 0 && runs[i].id < runs[i - 1].id {
      forall a, b | 0 <= a < b < |t| ensures t[a].id > t[b].id {
        if b == i && a < i - 1 { assert s[a].id > s[i - 1].id; }
        if b < i { assert s[a].id > s[b].id; }
      }
    }
  }

  lemma SourceIdsSnoc(sources: seq<SourceId>, x: SourceId)
    ensures SstIds(sources + [x]) == SstIds(sources) + (if x.SstSource? then {x.id} else {})
    ensures RunIds(sources + [x]) == RunIds(sources) + (if x.RunSource? then {x.id} else {})
  {
    var all := sources + [x];
    assert all[|sources|] == x;
    forall id | id in SstIds(sources) ensures id in SstIds(all) {
      var i :| 0 <= i < |sources| && sources[i] == SstSource(id);
      assert all[i] == SstSource(id);
    }
    forall id | id in RunIds(sources) ensures id in RunIds(all) {
      var i :| 0 <= i < |sources| && sources[i] == RunSource(id);
      assert all[i] == RunSource(id);
    }
  }

  /** The loop that inserts the output before the first run with no greater id and drops the sources. */
  method SpliceRuns(runs: seq<SortedRun>, out: SortedRun, drop: set<nat>) returns (r: seq<SortedRun>)
    ensures r == Splice(runs, out, drop)
  {
    r := [];
    var inserted := false;
    ghost var n := Above(runs, out.id);
    for i := 0 to |runs|
      invariant inserted <==> i > n
      invariant i <= n ==> r == DropRuns(runs[..i], drop)
      invariant i > n ==> r == DropRuns(runs[..n], drop) + [out] + DropRuns(runs[n..i], drop)
    {
      AboveAt(runs, out.id, i);
      if !inserted && out.id >= runs[i].id {
        r := r + [out];
        inserted := true;
        assert runs[n..n] == [];
      }
      assert runs[..i + 1][..i] == runs[..i];
      if i >= n {
        assert runs[n..i + 1][..i - n] == runs[n..i];
      }
      if runs[i].id !in drop {
        r := r + [runs[i]];
      }
    }
    if !inserted {
      r := r + [out];
      assert n == |runs| && runs[n..] == [];
    }
    assert runs[..|runs|] == runs && runs[n..|runs|] == runs[n..];
  }

  lemma {:induction false} AboveAt(runs: seq<SortedRun>, id: nat, i: nat)
    requires i < |runs|
    ensures i < Above(runs, id) ==> runs[i].id > id
    ensures i == Above(runs, id) ==> runs[i].id <= id
  {
    if i > 0 && runs[0].id > id {
      AboveAt(runs[1..], id, i - 1);
    }
  }

  lemma SpliceInIdOrder(runs: seq<SortedRun>, out: SortedRun, drop: set<nat>)
    requires Decreasing(runs) && (runs != [] ==> runs[0].id < MAX_UINT32) && out.id in drop
    ensures InIdOrder(Splice(runs, out, drop)) <==> out.id < MAX_UINT32
  {
    SpliceKeepsOrder(runs, out, drop);
    var r := Splice(runs, out, drop);
    SpliceMember(runs, out, drop, out);
    SpliceMember(runs, out, drop, r[0]);
    var i :| 0 <= i < |r| && r[i] == out;
  }

  // ---- any scheduler

  datatype Move = Submit(c: Compaction) | Refresh(writer: Core) | Finish(out: SortedRun)

  /** Finishing a compaction without sources, or into the maximal id, panics; the run ends there. */
  ghost function After(s: CState, move: Move): CState {
    match move
    case Submit(c) => WithCompaction(s, c)
    case Refresh(writer) => WithWriterState(s, writer)
    case Finish(out) =>
      if out.id in s.compactions && (s.compactions[out.id].sources == [] || out.id >= MAX_UINT32) then s
      else WithFinished(s, out)
  }

  ghost function AfterAll(s: CState, moves: seq<Move>): CState {
    if moves == [] then s else After(AfterAll(s, moves[..|moves| - 1]), moves[|moves| - 1])
  }

  /** Every registered compaction declares the run it would overwrite. */
  ghost predicate Sound(s: CState) {
    && InIdOrder(s.db.compacted)
    && forall d :: d in s.compactions ==>
         && s.compactions[d].destination == d
         && forall i :: 0 <= i < |s.db.compacted| && s.db.compacted[i].id == d ==>
              RunSource(d) in s.compactions[d].sources
  }

  lemma FinishKeepsSound(s: CState, out: SortedRun)
    requires Sound(s) && out.id in s.compactions && s.compactions[out.id].sources != []
    requires InIdOrder(WithFinished(s, out).db.compacted)
    ensures Sound(WithFinished(s, out))
  {
    hide InIdOrder, Splice;
    var c, t := s.compactions[out.id], WithFinished(s, out);
    var drop := RunIds(c.sources) + {c.destination};
    forall d, i | d in t.compactions && 0 <= i < |t.db.compacted| && t.db.compacted[i].id == d
      ensures RunSource(d) in t.compactions[d].sources
    {
      SpliceMember(s.db.compacted, out, drop, t.db.compacted[i]);
      assert t.db.compacted[i] in s.db.compacted;
    }
  }

  lemma MoveKeepsSound(s: CState, move: Move)
    requires Sound(s)
    ensures Sound(After(s, move))
  {
    match move
    case Submit(c) =>
    case Refresh(writer) =>
    case Finish(out) =>
      if out.id in s.compactions && s.compactions[out.id].sources != [] && out.id < MAX_UINT32 {
        FinishStaysInOrder(s, out);
        FinishKeepsSound(s, out);
      }
  }

  /** The order assertion never fires below the maximal id. */
  lemma FinishStaysInOrder(s: CState, out: SortedRun)
    requires Sound(s) && out.id in s.compactions && s.compactions[out.id].sources != [] && out.id < MAX_UINT32
    ensures InIdOrder(WithFinished(s, out).db.compacted)
  {
    hide Splice, InIdOrder;
    OrderParts(s.db.compacted);
    SpliceInIdOrder(s.db.compacted, out, RunIds(s.compactions[out.id].sources) + {s.compactions[out.id].destination});
  }

  /** Whatever compactions are submitted, refreshed and finished, the run list stays strictly
      decreasing and below the maximal id: a finish that has a source and an id below the maximum
      always passes the order assertion. */
  lemma {:induction false} RunsStayInOrder(s: CState, moves: seq<Move>)
    requires Sound(s)
    ensures Sound(AfterAll(s, moves)) && InIdOrder(AfterAll(s, moves).db.compacted)
  {
    hide Sound, After;
    if moves != [] {
      RunsStayInOrder(s, moves[..|moves| - 1]);
      MoveKeepsSound(AfterAll(s, moves[..|moves| - 1]), moves[|moves| - 1]);
    }
    assert InIdOrder(AfterAll(s, moves).db.compacted) by { SoundInOrder(AfterAll(s, moves)); }
  }

  lemma SoundInOrder(s: CState)
    requires Sound(s)
    ensures InIdOrder(s.db.compacted)
  {
  }

  /** After any such moves, finishing a registered compaction with a source: the order assertion
      fires exactly for the maximal destination, and a run or L0 table disappears exactly when it
      is a declared source. */
  lemma FinishDropsOnlySources(s: CState, moves: seq<Move>, out: SortedRun)
    requires Sound(s)
    requires out.id in AfterAll(s, moves).compactions && AfterAll(s, moves).compactions[out.id].sources != []
    ensures var u := AfterAll(s, moves);
      var c, t := u.compactions[out.id], WithFinished(u, out);
      && (InIdOrder(t.db.compacted) <==> out.id < MAX_UINT32)
      && out in t.db.compacted
      && (forall r :: r in u.db.compacted && r != out ==> (r in t.db.compacted <==> RunSource(r.id) !in c.sources))
      && (forall l :: l in u.db.l0 ==> (l in t.db.l0 <==> SstSource(l.id) !in c.sources))
      && (forall l :: l in t.db.l0 ==> l in u.db.l0)
      && t.db.l0LastCompacted == (match c.sources[0]
           case SstSource(id) => Some(id)
           case RunSource(_) => u.db.l0LastCompacted)
      && t.compactions == u.compactions - {out.id}
  {
    hide AfterAll, Splice, DropSsts, InIdOrder;
    RunsStayInOrder(s, moves);
    var u := AfterAll(s, moves);
    var c, t := u.compactions[out.id], WithFinished(u, out);
    var drop := RunIds(c.sources) + {c.destination};
    OrderParts(u.db.compacted);
    SpliceInIdOrder(u.db.compacted, out, drop);
    SpliceMember(u.db.compacted, out, drop, out);
    forall r | r in u.db.compacted && r != out ensures r in t.db.compacted <==> RunSource(r.id) !in c.sources {
      SpliceMember(u.db.compacted, out, drop, r);
      IdsOfSources(c.sources, r.id);
      var i :| 0 <= i < |u.db.compacted| && u.db.compacted[i] == r;
    }
    forall l | l in u.db.l0 || l in t.db.l0 ensures l in t.db.l0 <==> l in u.db.l0 && SstSource(l.id) !in c.sources {
      DropSstsMember(u.db.l0, SstIds(c.sources), l);
      IdsOfSources(c.sources, l.id);
    }
  }

  lemma OrderParts(runs: seq<SortedRun>)
    requires InIdOrder(runs)
    ensures Decreasing(runs) && (runs != [] ==> runs[0].id < MAX_UINT32)
  {
  }

  lemma IdsOfSources(sources: seq<SourceId>, id: nat)
    ensures id in SstIds(sources) <==> SstSource(id) in sources
    ensures id in RunIds(sources) <==> RunSource(id) in sources
  {
    if SstSource(id) in sources {
      var i :| 0 <= i < |sources| && sources[i] == SstSource(id);
    }
    if RunSource(id) in sources {
      var i :| 0 <= i < |sources| && sources[i] == RunSource(id);
    }
  }
}
