/** The WAL ids that replay reads (GetWalSSTList in slatedb/store/table_store.go). */
module WalLists {
  import opened Types

  /** The ids in the store above `lo`, in increasing order (GetWalSSTList). */
  ghost function IdsAbove(ids: set<nat>, lo: nat): seq<nat>
    decreases |set i | i in ids && i > lo|
  {
    var above := set i | i in ids && i > lo;
    if above == {} then [] else
      LeastExists(above);
      var m :| m in above && forall i :: i in above ==> m <= i;
      assert (set i | i in ids && i > m) <= above - {m};
      SubsetSize((set i | i in ids && i > m), above - {m});
      [m] + IdsAbove(ids, m)
  }

  lemma LeastExists(ids: set<nat>)
    requires ids != {}
    ensures exists m :: m in ids && forall i :: i in ids ==> m <= i
  {
    var x :| x in ids;
    LeastFrom(ids, x, 0);
  }

  lemma {:induction false} LeastFrom(ids: set<nat>, x: nat, n: nat)
    requires x in ids && n <= x && forall i :: i in ids ==> n <= i
    ensures exists m :: m in ids && forall i :: i in ids ==> m <= i
    decreases x - n
  {
    if n !in ids {
      LeastFrom(ids, x, n + 1);
    }
  }

  lemma {:induction false} SubsetSize(a: set<nat>, b: set<nat>)
    requires a <= b
    ensures |a| <= |b|
    decreases |a|
  {
    if a != {} {
      var x :| x in a;
      SubsetSize(a - {x}, b - {x});
    }
  }

  /** A gapless store 1..n lists lo + 1, ..., n. */
  lemma {:induction false} IdsAboveGapless(ids: set<nat>, lo: nat, n: nat)
    requires forall i :: i in ids <==> 1 <= i <= n
    requires lo <= n
    ensures IdsAbove(ids, lo) == seq(n - lo, i requires 0 <= i < n - lo => lo + 1 + i)
    decreases n - lo
  {
    var above := set i | i in ids && i > lo;
    if lo < n {
      assert lo + 1 in above;
      IdsAboveGapless(ids, lo + 1, n);
      var m :| m in above && (forall i :: i in above ==> m <= i) && IdsAbove(ids, lo) == [m] + IdsAbove(ids, m);
      assert m == lo + 1;
    }
  }

  ghost predicate Rising(s: seq<nat>) {
    forall i, j :: 0 <= i < j < |s| ==> s[i] < s[j]
  }

  lemma TailMember(s: seq<nat>, i: nat)
    requires Rising(s) && s != []
    ensures i in s[1..] <==> i in s && i > s[0]
  {
    if i in s[1..] {
      var n :| 0 <= n < |s[1..]| && s[1..][n] == i;
      assert s[n + 1] == i;
    }
    assert s == [s[0]] + s[1..];
  }

  lemma IdsAboveFirst(ids: set<nat>, lo: nat, m: nat)
    requires m in ids && m > lo && forall i :: i in ids && i > lo ==> m <= i
    ensures IdsAbove(ids, lo) == [m] + IdsAbove(ids, m)
  {
    var above := set i | i in ids && i > lo;
    assert m in above;
    var n :| n in above && (forall i :: i in above ==> n <= i) && IdsAbove(ids, lo) == [n] + IdsAbove(ids, n);
    assert n == m;
  }

  /** The list is determined by its members: sorting them in any way gives it. */
  lemma {:induction false} IdsAboveUnique(s: seq<nat>, ids: set<nat>, lo: nat)
    requires Rising(s) && forall i :: i in s <==> i in ids && i > lo
    ensures s == IdsAbove(ids, lo)
    decreases |s|
  {
    if s == [] {
      assert (set i | i in ids && i > lo) == {};
    } else {
      hide IdsAbove;
      assert s[0] in s;
      forall i ensures i in s[1..] <==> i in ids && i > s[0] {
        TailMember(s, i);
      }
      forall i | i in ids && i > lo ensures s[0] <= i {
        TailMember(s, i);
      }
      IdsAboveFirst(ids, lo, s[0]);
      RisingTail(s);
      IdsAboveUnique(s[1..], ids, s[0]);
      assert s == [s[0]] + s[1..];
    }
  }

  lemma RisingTail(s: seq<nat>)
    requires Rising(s) && s != []
    ensures Rising(s[1..])
  {
  }

  // ---- file names

  function Digits(n: nat, w: nat): (s: string)
    ensures |s| == w
  {
    if w == 0 then [] else Digits(n / 10, w - 1) + [('0' as int + n % 10) as char]
  }

  /** The file name of a WAL: its id in twenty digits, and the extension. */
  function WalName(id: nat): string {
    Digits(id, 20) + ".sst"
  }

  function ParseDigits(s: string): Option<nat> {
    if s == [] then Some(0) else
      var n, d := ParseDigits(s[..|s| - 1]), s[|s| - 1];
      if n.None? || d < '0' || d > '9' then None else Some(10 * n.value + (d as int - '0' as int))
  }

  /** parseID: cuts the extension off and parses the rest as a uint64. */
  function ParseId(name: string): Option<nat> {
    if |name| <= 4 || name[|name| - 4..] != ".sst" then None else
      var n := ParseDigits(name[..|name| - 4]);
      if n.None? || n.value >= TWO64 then None else n
  }

  function Pow10(w: nat): (p: nat)
    ensures p > 0
  {
    if w == 0 then 1 else 10 * Pow10(w - 1)
  }

  lemma {:induction false} DigitsRead(n: nat, w: nat)
    requires n < Pow10(w)
    ensures ParseDigits(Digits(n, w)) == Some(n)
  {
    if w > 0 {
      DigitsRead(n / 10, w - 1);
      assert Digits(n, w)[..w - 1] == Digits(n / 10, w - 1);
    }
  }

  lemma TwentyDigits()
    ensures Pow10(20) > TWO64
  {
    assert Pow10(5) == 100000 && Pow10(10) == 100000_00000 && Pow10(15) == 100000_00000_00000;
  }

  /** Every 64-bit id reads back from its file name. */
  lemma WalNameReads(id: nat)
    requires id < TWO64
    ensures ParseId(WalName(id)) == Some(id)
  {
    TwentyDigits();
    DigitsRead(id, 20);
    var name := WalName(id);
    assert name[..|name| - 4] == Digits(id, 20) && name[|name| - 4..] == ".sst";
  }

  lemma {:induction false} ParsedDigits(s: string)
    ensures ParseDigits(s).Some? <==> forall i :: 0 <= i < |s| ==> '0' <= s[i] <= '9'
  {
    if s != [] {
      ParsedDigits(s[..|s| - 1]);
    }
  }

  /** Only a number below 2^64 with the extension is an id. */
  lemma OnlyNames(name: string)
    ensures ParseId(name).Some? ==>
      && |name| > 4 && name[|name| - 4..] == ".sst" && ParseId(name).value < TWO64
      && forall i :: 0 <= i < |name| - 4 ==> '0' <= name[i] <= '9'
  {
    if ParseId(name).Some? {
      ParsedDigits(name[..|name| - 4]);
    }
  }

  /** Collects the ids above the last compacted one in the order in which the store lists its files, and
      sorts them. */
  method GetWalSSTList(names: seq<string>, lastCompacted: nat, ghost listed: seq<nat>) returns (walList: seq<nat>)
    requires |names| == |listed| && forall i :: 0 <= i < |names| ==> listed[i] < TWO64 && names[i] == WalName(listed[i])
    requires forall i, j :: 0 <= i < j < |listed| ==> listed[i] != listed[j]
    ensures walList == IdsAbove((set i | i in listed), lastCompacted)
  {
    hide ParseId, WalName, IdsAbove;
    walList := [];
    for n := 0 to |names|
      invariant Rising(walList)
      invariant forall i :: i in walList <==> i in listed[..n] && i > lastCompacted
    {
      assert listed[..n + 1] == listed[..n] + [listed[n]];
      WalNameReads(listed[n]);
      var id := ParseId(names[n]);
      if id.Some? && id.value > lastCompacted {
        assert listed[n] !in listed[..n];
        walList := Insert(walList, id.value);
      }
    }
    assert listed[..|listed|] == listed;
    IdsAboveUnique(walList, (set i | i in listed), lastCompacted);
  }

  lemma RisingAround(a: seq<nat>, id: nat, b: seq<nat>)
    requires Rising(a + b) && (a != [] ==> a[|a| - 1] < id) && (b != [] ==> id < b[0])
    ensures Rising(a + [id] + b)
  {
    forall i, j | 0 <= i < j < |a + [id] + b| ensures (a + [id] + b)[i] < (a + [id] + b)[j] {
      var i' := if i <= |a| then i else i - 1;
      var j' := if j <= |a| then j else j - 1;
      assert i' < |a + b| && i != |a| ==> (a + [id] + b)[i] == (a + b)[i'];
      assert j' < |a + b| && j != |a| ==> (a + [id] + b)[j] == (a + b)[j'];
      assert a != [] ==> (a + b)[|a| - 1] < id;
      assert b != [] ==> id < (a + b)[|a|];
    }
  }

  /** One step of the sort: puts an id in its place. */
  method Insert(s: seq<nat>, id: nat) returns (r: seq<nat>)
    requires Rising(s) && id !in s
    ensures Rising(r) && forall i :: i in r <==> i in s || i == id
  {
    hide Rising;
    var k := |s|;
    while k > 0 && s[k - 1] > id
      invariant 0 <= k <= |s|
      invariant k < |s| ==> id < s[k]
    {
      k := k - 1;
    }
    var a, b := s[..k], s[k..];
    assert s == a + b;
    r := a + [id] + b;
    RisingAround(a, id, b);
  }
}
