/** The k-way merge with precedence (internal/iter/merge.go). */
module MergeSorts {
  import opened Types
  import opened History
  import opened Keys

  /** The union of sorted lists in which the list given first wins. */
  function UnionRows(lists: seq<seq<RowEntry>>): Rows {
    if lists == [] then map[] else UnionRows(lists[1..]) + Apply(lists[0])
  }

  /** The rows above a key. */
  function Above(m: Rows, last: Key): Rows {
    map k | k in m && Less(last, k) :: m[k]
  }

  ghost predicate AllSorted(lists: seq<seq<RowEntry>>) {
    forall i :: 0 <= i < |lists| ==> Sorted(lists[i])
  }

  // ---- what popping the least head does to the union

  /** The first list that holds a key decides its row. */
  lemma {:induction false} UnionFirst(lists: seq<seq<RowEntry>>, i: nat, k: Key)
    requires i < |lists| && k in Apply(lists[i]) && forall j :: 0 <= j < i ==> k !in Apply(lists[j])
    ensures Lookup(UnionRows(lists), k) == Some(Apply(lists[i])[k])
  {
    if i > 0 {
      assert forall j :: 0 <= j < i - 1 ==> lists[1..][j] == lists[j + 1];
      UnionFirst(lists[1..], i - 1, k);
    }
  }

  lemma {:induction false} UnionKeys(lists: seq<seq<RowEntry>>, k: Key)
    ensures k in UnionRows(lists) <==> exists i :: 0 <= i < |lists| && k in Apply(lists[i])
  {
    if lists != [] {
      UnionKeys(lists[1..], k);
      if k in UnionRows(lists[1..]) {
        var i :| 0 <= i < |lists[1..]| && k in Apply(lists[1..][i]);
        assert k in Apply(lists[i + 1]);
      }
      if i :| 0 <= i < |lists| && k in Apply(lists[i]) {
        assert i > 0 ==> lists[1..][i - 1] == lists[i];
      }
    }
  }

  /** Removing one list's head leaves the rows of every other key. */
  lemma {:induction false} UnionDropHead(lists: seq<seq<RowEntry>>, i: nat, k: Key)
    requires i < |lists| && lists[i] != [] && k != lists[i][0].key
    ensures Lookup(UnionRows(lists[i := lists[i][1..]]), k) == Lookup(UnionRows(lists), k)
  {
    var after := lists[i := lists[i][1..]];
    if i == 0 {
      ApplyHead(lists[0]);
      assert after[1..] == lists[1..];
    } else {
      UnionDropHead(lists[1..], i - 1, k);
      assert after[1..] == lists[1..][i - 1 := lists[i][1..]];
      assert after[0] == lists[0];
    }
  }

  /** `i` has the least head: no key is smaller, and an equal key only later in precedence. */
  ghost predicate Least(lists: seq<seq<RowEntry>>, i: nat) {
    && i < |lists| && lists[i] != []
    && forall j :: 0 <= j < |lists| && lists[j] != [] && j != i ==>
         Less(lists[i][0].key, lists[j][0].key) || (lists[i][0].key == lists[j][0].key && i < j)
  }

  lemma LeastIsFirst(lists: seq<seq<RowEntry>>, i: nat)
    requires AllSorted(lists) && Least(lists, i)
    ensures Lookup(UnionRows(lists), lists[i][0].key) == Some(lists[i][0].value)
    ensures forall k :: k in UnionRows(lists) ==> AtMost(lists[i][0].key, k)
  {
    hide Less, UnionRows, Apply;
    KeyOrder();
    var k := lists[i][0].key;
    SortedLookup(lists[i], k);
    forall j | 0 <= j < i ensures k !in Apply(lists[j]) {
      SortedLookup(lists[j], k);
    }
    UnionFirst(lists, i, k);
    forall l | l in UnionRows(lists) ensures AtMost(k, l) {
      UnionKeys(lists, l);
      var j :| 0 <= j < |lists| && l in Apply(lists[j]);
      SortedLookup(lists[j], l);
      var x :| 0 <= x < |lists[j]| && lists[j][x].key == l;
      assert x > 0 ==> Less(lists[j][0].key, l);
    }
  }

  lemma AboveLookup(m: Rows, last: Key, k: Key)
    ensures Lookup(Above(m, last), k) == if Less(last, k) then Lookup(m, k) else None
  {
  }

  /** Popping the least head when it repeats the last key: nothing above that key changes. */
  lemma PopRepeated(lists: seq<seq<RowEntry>>, i: nat, last: Key)
    requires i < |lists| && lists[i] != [] && lists[i][0].key == last
    ensures Above(UnionRows(lists[i := lists[i][1..]]), last) == Above(UnionRows(lists), last)
  {
    hide UnionRows, Less, Above, Lookup;
    KeyOrder();
    var a, b := UnionRows(lists[i := lists[i][1..]]), UnionRows(lists);
    forall k ensures Lookup(Above(a, last), k) == Lookup(Above(b, last), k) {
      AboveLookup(a, last, k);
      AboveLookup(b, last, k);
      if k != last { UnionDropHead(lists, i, k); }
    }
    SameRows(Above(a, last), Above(b, last));
  }

  /** Popping a new least head: it is the least row above the last key, and the others remain. */
  lemma PopNew(lists: seq<seq<RowEntry>>, i: nat, last: Key)
    requires AllSorted(lists) && Least(lists, i) && Less(last, lists[i][0].key)
    ensures var e, rows := lists[i][0], Above(UnionRows(lists), last);
      && Lookup(rows, e.key) == Some(e.value)
      && (forall k :: k in rows ==> AtMost(e.key, k))
      && Above(UnionRows(lists[i := lists[i][1..]]), e.key) == rows - {e.key}
  {
    hide UnionRows, Less, AllSorted;
    KeyOrder();
    LeastIsFirst(lists, i);
    var e, a, b := lists[i][0], UnionRows(lists[i := lists[i][1..]]), UnionRows(lists);
    forall k ensures Lookup(Above(a, e.key), k) == Lookup(Above(b, last) - {e.key}, k) {
      AboveLookup(a, e.key, k);
      AboveLookup(b, last, k);
      if k != e.key { UnionDropHead(lists, i, k); }
    }
    SameRows(Above(a, e.key), Above(b, last) - {e.key});
  }

  // ---- the merge as a function of the lists

  /** No list has entries below the last key. */
  ghost predicate NoneBelow(lists: seq<seq<RowEntry>>, last: Key) {
    forall i :: 0 <= i < |lists| && lists[i] != [] ==> AtMost(last, lists[i][0].key)
  }

  function Total(lists: seq<seq<RowEntry>>): nat {
    if lists == [] then 0 else |lists[0]| + Total(lists[1..])
  }

  lemma {:induction false} TotalDrops(lists: seq<seq<RowEntry>>, i: nat)
    requires i < |lists| && lists[i] != []
    ensures Total(lists[i := lists[i][1..]]) == Total(lists) - 1
  {
    var after := lists[i := lists[i][1..]];
    if i == 0 {
      assert after[1..] == lists[1..];
    } else {
      TotalDrops(lists[1..], i - 1);
      assert after[1..] == lists[1..][i - 1 := lists[i][1..]] && after[0] == lists[0];
    }
  }

  lemma LeastHead(lists: seq<seq<RowEntry>>, i: nat)
    requires Least(lists, i)
    ensures i < |lists| && lists[i] != []
  {
  }

  predicate AllEmpty(lists: seq<seq<RowEntry>>) {
    forall i :: 0 <= i < |lists| ==> lists[i] == []
  }

  lemma {:induction false} LeastExists(lists: seq<seq<RowEntry>>, n: nat) returns (i: nat)
    requires n <= |lists| && exists j :: 0 <= j < n && lists[j] != []
    ensures i < n && lists[i] != [] && Least(lists[..n], i)
  {
    hide Less;
    KeyOrder();
    var m := n - 1;
    if j :| 0 <= j < m && lists[j] != [] {
      i := LeastExists(lists, m);
      assert lists[..m][i] == lists[i];
      assert forall j :: 0 <= j < m ==> lists[..n][j] == lists[..m][j];
      if lists[m] != [] && Less(lists[m][0].key, lists[i][0].key) {
        i := m;
      }
    } else {
      i := m;
    }
  }

  lemma SomeLeast(lists: seq<seq<RowEntry>>)
    requires !AllEmpty(lists)
    ensures exists i: nat :: Least(lists, i)
  {
    hide Least;
    var i := LeastExists(lists, |lists|);
    assert lists[..|lists|] == lists;
  }

  lemma LeastUnique(lists: seq<seq<RowEntry>>, i: nat, j: nat)
    requires Least(lists, i) && Least(lists, j)
    ensures i == j
  {
    hide Less;
    KeyOrder();
  }

  /** What merging yields, for lists in any order: always the least head, of equal ones that of the first
      list, unless it has the key just yielded. */
  ghost function Merge(lists: seq<seq<RowEntry>>, last: Key): seq<RowEntry>
    decreases Total(lists)
  {
    if AllEmpty(lists) then [] else
      SomeLeast(lists);
      var i: nat :| Least(lists, i);
      TotalDrops(lists, i);
      var e := lists[i][0];
      (if e.key == last then [] else [e]) + Merge(lists[i := lists[i][1..]], e.key)
  }

  lemma MergeStep(lists: seq<seq<RowEntry>>, last: Key, i: nat)
    requires Least(lists, i)
    ensures i < |lists| && lists[i] != []
    ensures var e := lists[i][0];
      Merge(lists, last) == (if e.key == last then [] else [e]) + Merge(lists[i := lists[i][1..]], e.key)
  {
    hide Less, Least;
    LeastHead(lists, i);
    SomeLeast(lists);
    forall j: nat | Least(lists, j) ensures j == i { LeastUnique(lists, i, j); }
  }

  /** After popping a least head, what is left is sorted and not below it. */
  lemma AdvanceOK(lists: seq<seq<RowEntry>>, i: nat, last: Key)
    requires AllSorted(lists) && NoneBelow(lists, last) && Least(lists, i) && i < |lists| && lists[i] != []
    ensures var e, lists' := lists[i][0], lists[i := lists[i][1..]];
      && AllSorted(lists') && NoneBelow(lists', last) && NoneBelow(lists', e.key)
      && (e.key != last ==> Less(last, e.key))
      && Total(lists') < Total(lists)
  {
    hide Less, Total;
    KeyOrder();
    TotalDrops(lists, i);
    var e: RowEntry, lists': seq<seq<RowEntry>> := lists[i][0], lists[i := lists[i][1..]];
    assert AtMost(last, e.key);
    forall j | 0 <= j < |lists'| && lists'[j] != [] ensures AtMost(e.key, lists'[j][0].key) {
      if j == i { assert lists'[i][0] == lists[i][1]; }
    }
  }

  /** For sorted lists the merge is exact: the rows above the last key, in order, the first list that
      has a key winning. */
  lemma {:induction false} SortedMerge(lists: seq<seq<RowEntry>>, last: Key)
    requires AllSorted(lists) && NoneBelow(lists, last)
    ensures Merge(lists, last) == Listing(Above(UnionRows(lists), last))
    decreases Total(lists)
  {
    hide Less, UnionRows, Above, Merge, Listing, Least, AllSorted, NoneBelow, Total;
    if AllEmpty(lists) {
      NothingLeft(lists, last);
    } else {
      SomeLeast(lists);
      var i: nat :| Least(lists, i);
      LeastHead(lists, i);
      MergeStep(lists, last, i);
      AdvanceOK(lists, i, last);
      var e, rest := lists[i][0], lists[i := lists[i][1..]];
      SortedMerge(rest, e.key);
      if e.key == last {
        PopRepeated(lists, i, last);
      } else {
        PopNew(lists, i, last);
        var rows := Above(UnionRows(lists), last);
        assert e.key in rows && rows[e.key] == e.value;
        ListingHead(rows, e.key);
      }
    }
  }

  lemma NothingLeft(lists: seq<seq<RowEntry>>, last: Key)
    requires AllEmpty(lists)
    ensures Merge(lists, last) == [] == Listing(Above(UnionRows(lists), last))
  {
    hide UnionRows;
    forall k ensures k !in UnionRows(lists) {
      UnionKeys(lists, k);
    }
    assert Above(UnionRows(lists), last) == map[];
  }

  lemma NoneBelowFirst(lists: seq<seq<RowEntry>>)
    ensures NoneBelow(lists, [])
  {
  }

  /** Whatever is merged comes from one of the lists. */
  lemma {:induction false} MergedFrom(lists: seq<seq<RowEntry>>, last: Key, x: RowEntry) returns (j: nat)
    requires x in Merge(lists, last)
    ensures j < |lists| && x in lists[j]
    decreases Total(lists)
  {
    hide Less, Least, Total;
    SomeLeast(lists);
    var i: nat :| Least(lists, i);
    LeastHead(lists, i);
    TotalDrops(lists, i);
    MergeStep(lists, last, i);
    hide Merge;
    var e, rest := lists[i][0], lists[i := lists[i][1..]];
    if x == e {
      j := i;
    } else {
      j := MergedFrom(rest, e.key, x);
    }
  }

  // ---- the heap

  datatype HeapItem = HeapItem(kv: RowEntry, index: nat)

  /** heapItem.Compare: by key, then by the iterator's position. */
  predicate ItemLess(a: HeapItem, b: HeapItem) {
    Less(a.kv.key, b.kv.key) || (a.kv.key == b.kv.key && a.index < b.index)
  }

  ghost predicate InHeap(heap: seq<HeapItem>, i: nat) {
    exists h :: 0 <= h < |heap| && heap[h].index == i
  }

  ghost predicate DistinctIndices(heap: seq<HeapItem>) {
    forall g, h :: 0 <= g < h < |heap| ==> heap[g].index != heap[h].index
  }

  /** The heap holds the head of every one of the first n lists that is not exhausted, and nothing
      else; `rest` are the lists without their heads. */
  ghost predicate HeapOK(heap: seq<HeapItem>, rest: seq<seq<RowEntry>>, lists: seq<seq<RowEntry>>, n: nat) {
    && |rest| == |lists| && n <= |lists|
    && (forall h :: 0 <= h < |heap| ==>
          heap[h].index < n && lists[heap[h].index] == [heap[h].kv] + rest[heap[h].index])
    && DistinctIndices(heap)
    && (forall i :: 0 <= i < n && lists[i] != [] ==> InHeap(heap, i))
    && (forall i :: 0 <= i < n && lists[i] == [] ==> rest[i] == [])
  }

  lemma PushFirst(heap: seq<HeapItem>, rest: seq<seq<RowEntry>>, lists: seq<seq<RowEntry>>, n: nat)
    requires HeapOK(heap, rest, lists, n) && n < |lists| && rest[n] == lists[n]
    ensures lists[n] == [] ==> HeapOK(heap, rest, lists, n + 1)
    ensures lists[n] != [] ==>
      HeapOK(heap + [HeapItem(lists[n][0], n)], rest[n := lists[n][1..]], lists, n + 1)
  {
    if lists[n] != [] {
      var heap' := heap + [HeapItem(lists[n][0], n)];
      assert heap'[|heap|].index == n;
      forall i | 0 <= i < n && lists[i] != [] ensures InHeap(heap', i) {
        var h :| 0 <= h < |heap| && heap[h].index == i;
        assert heap'[h].index == i;
      }
    }
  }

  /** As HeapOK for all lists but the i-th, which has no item in the heap. */
  ghost predicate HeapBut(heap: seq<HeapItem>, rest: seq<seq<RowEntry>>, lists: seq<seq<RowEntry>>, i: nat) {
    && |rest| == |lists|
    && (forall h :: 0 <= h < |heap| ==>
          heap[h].index < |lists| && heap[h].index != i && lists[heap[h].index] == [heap[h].kv] + rest[heap[h].index])
    && DistinctIndices(heap)
    && (forall j :: 0 <= j < |lists| && j != i && lists[j] != [] ==> InHeap(heap, j))
    && (forall j :: 0 <= j < |lists| && j != i && lists[j] == [] ==> rest[j] == [])
  }

  /** Removing one item keeps the others. */
  lemma RemoveItem(heap: seq<HeapItem>, m: nat)
    requires m < |heap| && DistinctIndices(heap)
    ensures var without := heap[..m] + heap[m + 1..];
      && DistinctIndices(without)
      && (forall h :: 0 <= h < |without| ==> without[h] in heap && without[h].index != heap[m].index)
      && (forall j :: j != heap[m].index && InHeap(heap, j) ==> InHeap(without, j))
  {
    var without := heap[..m] + heap[m + 1..];
    forall h | 0 <= h < |without| ensures without[h] in heap && without[h].index != heap[m].index {
      assert without[h] == if h < m then heap[h] else heap[h + 1];
    }
    forall j | j != heap[m].index && InHeap(heap, j) ensures InHeap(without, j) {
      var h :| 0 <= h < |heap| && heap[h].index == j;
      assert without[if h < m then h else h - 1] == heap[h];
    }
  }

  lemma Without(heap: seq<HeapItem>, rest: seq<seq<RowEntry>>, lists: seq<seq<RowEntry>>, m: nat)
    requires HeapOK(heap, rest, lists, |lists|) && m < |heap|
    ensures HeapBut(heap[..m] + heap[m + 1..], rest, lists, heap[m].index)
  {
    hide DistinctIndices, InHeap;
    RemoveItem(heap, m);
  }

  lemma PushNext(heap: seq<HeapItem>, rest: seq<seq<RowEntry>>, lists: seq<seq<RowEntry>>, i: nat)
    requires HeapBut(heap, rest, lists, i) && i < |lists|
    ensures rest[i] == [] ==> HeapOK(heap, rest, lists[i := []], |lists|)
    ensures rest[i] != [] ==>
      HeapOK(heap + [HeapItem(rest[i][0], i)], rest[i := rest[i][1..]], lists[i := rest[i]], |lists|)
  {
    if rest[i] != [] {
      var heap' := heap + [HeapItem(rest[i][0], i)];
      assert heap'[|heap|].index == i;
      forall j | 0 <= j < |lists| && j != i && lists[j] != [] ensures InHeap(heap', j) {
        assert InHeap(heap, j);
        var h :| 0 <= h < |heap| && heap[h].index == j;
        assert heap'[h].index == j;
      }
    }
  }

  /** The heap without the m-th item, which belongs to list i, and with the list's next entry. */
  lemma Replace(heap: seq<HeapItem>, rest: seq<seq<RowEntry>>, lists: seq<seq<RowEntry>>, m: nat)
    requires HeapOK(heap, rest, lists, |lists|) && m < |heap|
    ensures var i, without := heap[m].index, heap[..m] + heap[m + 1..];
      var lists' := lists[i := lists[i][1..]];
      && i < |lists| && lists[i] == [heap[m].kv] + rest[i] && lists[i][1..] == rest[i]
      && (rest[i] == [] ==> HeapOK(without, rest, lists', |lists|))
      && (rest[i] != [] ==> HeapOK(without + [HeapItem(rest[i][0], i)], rest[i := rest[i][1..]], lists', |lists|))
  {
    ItemHead(heap, rest, lists, m);
    hide HeapOK, HeapBut;
    Without(heap, rest, lists, m);
    PushNext(heap[..m] + heap[m + 1..], rest, lists, heap[m].index);
  }

  lemma ItemHead(heap: seq<HeapItem>, rest: seq<seq<RowEntry>>, lists: seq<seq<RowEntry>>, m: nat)
    requires HeapOK(heap, rest, lists, |lists|) && m < |heap|
    ensures var i := heap[m].index;
      |rest| == |lists| && i < |lists| && lists[i] == [heap[m].kv] + rest[i] && lists[i][1..] == rest[i]
  {
  }

  /** A least item is the head of a least list. */
  lemma LeastItem(heap: seq<HeapItem>, rest: seq<seq<RowEntry>>, lists: seq<seq<RowEntry>>, m: nat)
    requires HeapOK(heap, rest, lists, |lists|) && m < |heap|
    requires forall h :: 0 <= h < |heap| ==> !ItemLess(heap[h], heap[m])
    ensures Least(lists, heap[m].index)
  {
    hide Less;
    KeyOrder();
    var i := heap[m].index;
    forall j | 0 <= j < |lists| && lists[j] != [] && j != i
      ensures Less(lists[i][0].key, lists[j][0].key) || (lists[i][0].key == lists[j][0].key && i < j)
    {
      assert InHeap(heap, j);
      var h :| 0 <= h < |heap| && heap[h].index == j;
      assert !ItemLess(heap[h], heap[m]);
    }
  }

  // ---- the object

  class MergeSort {
    var rest: seq<seq<RowEntry>>         // what each iterator has still to yield
    var heap: seq<HeapItem>              // the current entry of each iterator that has one
    var lastKey: Key
    ghost var lists: seq<seq<RowEntry>>  // heap entry and rest together, per iterator

    ghost predicate Valid()
      reads this
    {
      HeapOK(heap, rest, lists, |lists|)
    }

    /** What is still to be yielded. */
    ghost function Remaining(): seq<RowEntry>
      reads this
    {
      Merge(lists, lastKey)
    }

    constructor (iterators: seq<seq<RowEntry>>)
      ensures Valid() && Remaining() == Merge(iterators, [])
    {
      rest, heap, lastKey, lists := iterators, [], [], iterators;
      new;
      for i := 0 to |iterators|
        invariant lists == iterators && lastKey == []
        invariant HeapOK(heap, rest, lists, i)
        invariant forall j :: i <= j < |iterators| ==> rest[j] == iterators[j]
      {
        PushFirst(heap, rest, lists, i);
        if rest[i] != [] {
          heap := heap + [HeapItem(rest[i][0], i)];
          rest := rest[i := rest[i][1..]];
        }
      }
    }

    /** heap.Pop: removes a least item by ItemLess. */
    method PopMin() returns (item: HeapItem, ghost m: nat)
      requires heap != []
      modifies `heap
      ensures m < |old(heap)| && item == old(heap)[m] && heap == old(heap)[..m] + old(heap)[m + 1..]
      ensures forall h :: 0 <= h < |old(heap)| ==> !ItemLess(old(heap)[h], item)
    {
      hide Less;
      KeyOrder();
      var best := 0;
      for i := 1 to |heap|
        invariant 0 <= best < |heap| && heap == old(heap)
        invariant forall h :: 0 <= h < i ==> !ItemLess(heap[h], heap[best])
      {
        if ItemLess(heap[i], heap[best]) {
          best := i;
        }
      }
      m, item := best, heap[best];
      heap := heap[..best] + heap[best + 1..];
    }

    /** Pops the least entry and pushes its iterator's next one. */
    method Advance() returns (kv: RowEntry, ghost i: nat)
      requires Valid() && heap != []
      modifies this
      ensures Least(old(lists), i) && kv == old(lists)[i][0]
      ensures lists == old(lists)[i := old(lists)[i][1..]] && lastKey == old(lastKey)
      ensures HeapOK(heap, rest, lists, |lists|)
    {
      hide HeapOK, Least, ItemLess;
      ghost var heap0, m := heap, 0;
      var item: HeapItem;
      item, m := PopMin();
      i, kv := item.index, item.kv;
      Replace(heap0, rest, lists, m);
      LeastItem(heap0, rest, lists, m);
      lists := lists[i := lists[i][1..]];
      assert |rest| == |lists| by { SameLengths(heap0, rest, old(lists), |old(lists)|); }
      if rest[item.index] != [] {
        heap := heap + [HeapItem(rest[item.index][0], item.index)];
        rest := rest[item.index := rest[item.index][1..]];
      }
    }

    /** Yields what remains one by one. For sorted iterators SortedMerge says what that is. */
    method NextEntry() returns (kv: RowEntry, ok: bool)
      requires Valid()
      modifies this
      ensures Valid() && (ok <==> old(Remaining()) != [])
      ensures ok ==> kv == old(Remaining())[0] && Remaining() == old(Remaining())[1..]
    {
      hide HeapOK, Less, Least, ItemLess, Merge, Total;
      while heap != []
        invariant Valid() && Remaining() == old(Remaining())
        decreases Total(lists)
      {
        ghost var before := lists;
        ghost var i;
        kv, i := Advance();
        MergeStep(before, lastKey, i);
        TotalDrops(before, i);
        if kv.key != lastKey {
          lastKey := kv.key;
          return kv, true;
        }
      }
      EmptyHeap(heap, rest, lists);
      NothingLeft(lists, lastKey);
      return RowEntry([], Tombstone), false;
    }
  }

  lemma SameLengths(heap: seq<HeapItem>, rest: seq<seq<RowEntry>>, lists: seq<seq<RowEntry>>, n: nat)
    requires HeapOK(heap, rest, lists, n)
    ensures |rest| == |lists|
  {
  }

  lemma EmptyHeap(heap: seq<HeapItem>, rest: seq<seq<RowEntry>>, lists: seq<seq<RowEntry>>)
    requires HeapOK(heap, rest, lists, |lists|) && heap == []
    ensures AllEmpty(lists)
  {
    forall i | 0 <= i < |lists| ensures lists[i] == [] {
      assert !InHeap(heap, i);
    }
  }
}
