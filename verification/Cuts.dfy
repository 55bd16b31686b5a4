/** How a compaction cuts its merged output into tables (slatedb/compaction/executor.go). */
module Cuts {
  import opened Types
  import opened History

  /** What the size limit counts of an entry. */
  function EntryBytes(e: RowEntry): nat {
    |e.key| + match e.value case Tombstone => 0 case KeyValue(bytes) => |bytes|
  }

  function TableBytes(t: seq<RowEntry>): nat {
    if t == [] then 0 else TableBytes(t[..|t| - 1]) + EntryBytes(t[|t| - 1])
  }

  /** The table exceeds the limit, and only because of its last entry. */
  ghost predicate JustOver(t: seq<RowEntry>, limit: nat) {
    t != [] && TableBytes(t) > limit && TableBytes(t[..|t| - 1]) <= limit
  }

  /** A table is closed as soon as it exceeds the limit. */
  function CutFrom(rest: seq<RowEntry>, current: seq<RowEntry>, limit: nat): seq<seq<RowEntry>>
    decreases |rest|
  {
    if rest == [] then (if current == [] then [] else [current]) else
      var t := current + [rest[0]];
      if TableBytes(t) > limit then [t] + CutFrom(rest[1..], [], limit) else CutFrom(rest[1..], t, limit)
  }

  /** No table is empty, and each exceeds the limit only because of its last entry, except that the last
      one may be within it. */
  ghost predicate WellCut(tables: seq<seq<RowEntry>>, limit: nat) {
    && (forall t :: 0 <= t < |tables| ==> tables[t] != [])
    && (forall t :: 0 <= t < |tables| - 1 ==> JustOver(tables[t], limit))
    && (tables != [] ==> JustOver(tables[|tables| - 1], limit) || TableBytes(tables[|tables| - 1]) <= limit)
  }

  /** The cut is an exact partition, and cut as promised. */
  lemma {:induction false} CutFromIsWellCut(rest: seq<RowEntry>, current: seq<RowEntry>, limit: nat)
    requires TableBytes(current) <= limit
    ensures Flatten(CutFrom(rest, current, limit)) == current + rest && WellCut(CutFrom(rest, current, limit), limit)
    decreases |rest|
  {
    hide TableBytes, Flatten;
    if rest == [] {
      FlattenFew(current);
    } else {
      var t := current + [rest[0]];
      assert t[..|t| - 1] == current;
      if TableBytes(t) > limit {
        NoBytes();
        CutFromIsWellCut(rest[1..], [], limit);
        var later := CutFrom(rest[1..], [], limit);
        FlattenConcat([t], later);
        FlattenFew(t);
        assert t + ([] + rest[1..]) == current + rest;
        WellCutCons(t, later, limit);
      } else {
        CutFromIsWellCut(rest[1..], t, limit);
        assert t + rest[1..] == current + rest;
      }
    }
  }

  lemma WellCutCons(t: seq<RowEntry>, later: seq<seq<RowEntry>>, limit: nat)
    requires JustOver(t, limit) && WellCut(later, limit)
    ensures WellCut([t] + later, limit)
  {
    hide JustOver, TableBytes;
    assert t != [] by { OverSome(t, limit); }
    var all := [t] + later;
    assert forall i :: 0 < i < |all| ==> all[i] == later[i - 1];
  }

  lemma OverSome(t: seq<RowEntry>, limit: nat)
    requires JustOver(t, limit)
    ensures t != []
  {
  }

  lemma FlattenFew(t: seq<RowEntry>)
    ensures Flatten<RowEntry>([]) == [] && Flatten([t]) == t && t + [] == t
  {
    assert [t][..0] == [];
  }

  lemma NoBytes()
    ensures TableBytes([]) == 0
  {
  }

  lemma BytesSnoc(t: seq<RowEntry>, e: RowEntry)
    ensures TableBytes(t + [e]) == TableBytes(t) + EntryBytes(e)
  {
    assert (t + [e])[..|t|] == t;
  }

  /** What the limit counts: keys and values, and nothing for a tombstone. */
  lemma BytesOfOne(k: Key, v: Bytes)
    ensures TableBytes([RowEntry(k, KeyValue(v))]) == |k| + |v|
    ensures TableBytes([RowEntry(k, Tombstone)]) == |k|
  {
    assert [RowEntry(k, KeyValue(v))][..0] == [] == [RowEntry(k, Tombstone)][..0];
    assert TableBytes([]) == 0;
  }

  lemma {:induction false} BytesConcat(a: seq<RowEntry>, b: seq<RowEntry>)
    ensures TableBytes(a + b) == TableBytes(a) + TableBytes(b)
  {
    hide EntryBytes;
    if b == [] {
      assert a + b == a;
    } else {
      BytesConcat(a, b[..|b| - 1]);
      assert (a + b)[..|a + b| - 1] == a + b[..|b| - 1];
    }
  }

  /** A table with an entry that has a key counts at least one byte. */
  lemma {:induction false} BytesIffRows(t: seq<RowEntry>)
    requires forall i :: 0 <= i < |t| ==> t[i].key != []
    ensures TableBytes(t) > 0 <==> t != []
  {
  }
}
