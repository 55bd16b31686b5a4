/** The order of keys (bytes.Compare) and tables as sequences sorted by it. */
module Keys {
  import opened Types
  import opened History

  predicate Less(a: Key, b: Key)
    decreases |b|
  {
    b != [] && (a == [] || a[0] < b[0] || (a[0] == b[0] && Less(a[1..], b[1..])))
  }

  predicate AtMost(a: Key, b: Key) {
    a == b || Less(a, b)
  }

  /** bytes.Compare: at the first place where the keys differ, the one that ends there or has the
      smaller byte is less. */
  lemma {:induction false} LessIsLexicographic(a: Key, b: Key)
    ensures Less(a, b) <==>
      exists n :: 0 <= n <= |a| && n < |b| && a[..n] == b[..n] && (n == |a| || a[n] < b[n])
    decreases |b|
  {
    forall n | 0 < n <= |a| && n <= |b| ensures a[..n] == b[..n] ==> a[0] == b[0] { SameHead(a, b, n); }
    if b != [] && (a == [] || a[0] < b[0]) {
      assert a[..0] == b[..0];
    } else if b != [] && a[0] == b[0] {
      LessIsLexicographic(a[1..], b[1..]);
      if Less(a, b) {
        var n :| 0 <= n <= |a[1..]| && n < |b[1..]| && a[1..][..n] == b[1..][..n]
          && (n == |a[1..]| || a[1..][n] < b[1..][n]);
        assert a[..n + 1] == [a[0]] + a[1..][..n] && b[..n + 1] == [b[0]] + b[1..][..n];
      }
      if n :| 0 <= n <= |a| && n < |b| && a[..n] == b[..n] && (n == |a| || a[n] < b[n]) {
        assert n > 0;
        assert a[1..][..n - 1] == a[..n][1..] && b[1..][..n - 1] == b[..n][1..];
      }
    }
  }

  lemma SameHead(a: Key, b: Key, n: nat)
    requires 0 < n <= |a| && n <= |b|
    ensures a[..n] == b[..n] ==> a[0] == b[0]
  {
    assert a[..n][0] == a[0] && b[..n][0] == b[0];
  }

  lemma {:induction false} LessIrreflexive(a: Key)
    ensures !Less(a, a)
  {
    if a != [] { LessIrreflexive(a[1..]); }
  }

  lemma {:induction false} LessTransitive(a: Key, b: Key, c: Key)
    requires Less(a, b) && Less(b, c)
    ensures Less(a, c)
    decreases |b|
  {
    if a != [] && a[0] == b[0] == c[0] { LessTransitive(a[1..], b[1..], c[1..]); }
  }

  lemma {:induction false} LessTotal(a: Key, b: Key)
    ensures a == b || Less(a, b) || Less(b, a)
    decreases |a|
  {
    if a != [] && b != [] && a[0] == b[0] {
      LessTotal(a[1..], b[1..]);
      assert a == [a[0]] + a[1..] && b == [b[0]] + b[1..];
    }
  }

  /** Less is a strict total order. */
  lemma KeyOrder()
    ensures forall a: Key, b: Key {:trigger Less(a, b)} :: Less(a, b) ==> a != b && !Less(b, a)
    ensures forall a: Key, b: Key {:trigger Less(a, b)} :: !Less(a, b) ==> a == b || Less(b, a)
    ensures forall a: Key, b: Key, c: Key {:trigger Less(a, b), Less(b, c)} :: Less(a, b) && Less(b, c) ==> Less(a, c)
  {
    forall a: Key, b: Key | Less(a, b) ensures a != b && !Less(b, a) {
      LessIrreflexive(a);
      if Less(b, a) { LessTransitive(a, b, a); }
    }
    forall a: Key, b: Key | !Less(a, b) ensures a == b || Less(b, a) {
      LessTotal(a, b);
    }
    forall a: Key, b: Key, c: Key | Less(a, b) && Less(b, c) ensures Less(a, c) {
      LessTransitive(a, b, c);
    }
  }

  ghost predicate Sorted(s: seq<RowEntry>) {
    forall i, j :: 0 <= i < j < |s| ==> Less(s[i].key, s[j].key)
  }

  /** In a sorted table the row of a key is the one entry that has it. */
  lemma {:induction false} SortedLookup(s: seq<RowEntry>, k: Key)
    requires Sorted(s)
    ensures k in Apply(s) <==> exists i :: 0 <= i < |s| && s[i].key == k
    ensures forall i :: 0 <= i < |s| && s[i].key == k ==> Lookup(Apply(s), k) == Some(s[i].value)
  {
    if s != [] {
      var n := |s| - 1;
      SortedLookup(s[..n], k);
      LessIrreflexive(s[n].key);
      if k in Apply(s[..n]) {
        var i :| 0 <= i < n && s[..n][i].key == k;
        assert s[i].key == k;
      }
      if i :| 0 <= i < |s| && s[i].key == k {
        assert i < n ==> s[..n][i].key == k && Less(k, s[n].key);
        assert i == n ==> k in Apply(s);
      }
    }
  }

  /** A sorted sequence is determined by the table it holds. */
  lemma {:induction false} SortedUnique(a: seq<RowEntry>, b: seq<RowEntry>)
    requires Sorted(a) && Sorted(b) && Apply(a) == Apply(b)
    ensures a == b
    decreases |a|
  {
    hide Less, Apply;
    KeyOrder();
    if a == [] {
      EmptyTable(a);
      EmptyTable(b);
    } else {
      SortedLookup(a, a[0].key);
      SortedLookup(b, a[0].key);
      var i :| 0 <= i < |b| && b[i].key == a[0].key;
      SortedLookup(a, b[0].key);
      SortedLookup(b, b[0].key);
      var j :| 0 <= j < |a| && a[j].key == b[0].key;
      assert i == 0 && j == 0;
      assert a[0] == b[0];
      ApplyHead(a);
      ApplyHead(b);
      assert Apply(a[1..]) == Apply(b[1..]) by {
        assert a[0].key !in Apply(a[1..]) by { NotInTail(a); }
        assert b[0].key !in Apply(b[1..]) by { NotInTail(b); }
        assert Apply(a[1..]) == Apply(a) - {a[0].key};
        assert Apply(b[1..]) == Apply(b) - {b[0].key};
      }
      SortedUnique(a[1..], b[1..]);
      assert a == [a[0]] + a[1..] && b == [b[0]] + b[1..];
    }
  }

  lemma EmptyTable(s: seq<RowEntry>)
    ensures Apply(s) == map[] <==> s == []
  {
    if s != [] { assert s[|s| - 1].key in Apply(s); }
  }

  lemma NotInTail(s: seq<RowEntry>)
    requires Sorted(s) && s != []
    ensures s[0].key !in Apply(s[1..])
  {
    hide Less;
    KeyOrder();
    SortedLookup(s[1..], s[0].key);
  }

  lemma ApplyHead(s: seq<RowEntry>)
    requires s != []
    ensures Apply(s) == map[s[0].key := s[0].value] + Apply(s[1..])
  {
    ApplyConcat([s[0]], s[1..]);
    assert [s[0]] + s[1..] == s;
    assert [s[0]][..0] == [];
  }

  // ---- the sorted list of a table

  lemma {:induction false} LeastKey(m: Rows) returns (k: Key)
    requires m != map[]
    ensures k in m && forall j :: j in m ==> AtMost(k, j)
    decreases |m|
  {
    hide Less;
    KeyOrder();
    var first :| first in m;
    var rest := m - {first};
    k := first;
    if rest != map[] {
      assert |rest.Keys| < |m.Keys| by { assert rest.Keys == m.Keys - {first}; }
      var least := LeastKey(rest);
      k := if Less(least, first) then least else first;
      forall j | j in m ensures AtMost(k, j) {
        assert j == first || j in rest;
      }
    } else {
      assert forall j :: j in m ==> j == first || j in rest;
    }
  }

  /** The entries of a table in the order of their keys. */
  ghost function Listing(m: Rows): (s: seq<RowEntry>)
    ensures Sorted(s) && Apply(s) == m
    decreases |m|
  {
    if m == map[] then EmptyListing(); [] else
      var k := FirstKeyOf(m);
      assert |(m - {k}).Keys| < |m.Keys| by { assert (m - {k}).Keys == m.Keys - {k}; }
      var s := [RowEntry(k, m[k])] + Listing(m - {k});
      ListingStep(m, k, Listing(m - {k}));
      s
  }

  ghost function FirstKeyOf(m: Rows): (k: Key)
    requires m != map[]
    ensures k in m && forall j :: j in m ==> AtMost(k, j)
  {
    LeastKeyExists(m);
    var k :| k in m && forall j :: j in m ==> AtMost(k, j);
    k
  }

  lemma LeastKeyExists(m: Rows)
    requires m != map[]
    ensures exists k :: k in m && forall j :: j in m ==> AtMost(k, j)
  {
    var k := LeastKey(m);
  }

  lemma EmptyListing()
    ensures Sorted([]) && Apply([]) == map[]
  {
  }

  lemma ListingStep(m: Rows, k: Key, rest: seq<RowEntry>)
    requires k in m && (forall j :: j in m ==> AtMost(k, j)) && Sorted(rest) && Apply(rest) == m - {k}
    ensures Sorted([RowEntry(k, m[k])] + rest) && Apply([RowEntry(k, m[k])] + rest) == m
  {
    hide Less, Apply;
    KeyOrder();
    var s := [RowEntry(k, m[k])] + rest;
    ApplyHead(s);
    assert s[1..] == rest;
    forall i | 0 <= i < |rest| ensures Less(k, rest[i].key) {
      SortedLookup(rest, rest[i].key);
      assert rest[i].key in m - {k};
    }
  }

  /** Taking the least key out leaves the rest of the list. */
  lemma ListingHead(m: Rows, k: Key)
    requires k in m && forall j :: j in m ==> AtMost(k, j)
    ensures Listing(m) == [RowEntry(k, m[k])] + Listing(m - {k})
  {
    hide Listing;
    ListingStep(m, k, Listing(m - {k}));
    SortedUnique(Listing(m), [RowEntry(k, m[k])] + Listing(m - {k}));
  }

  // ---- the entries at or above a key

  /** What a seek must yield: the entries with a key at or above the given one, in order. */
  function AtOrAbove(s: seq<RowEntry>, k: Key): seq<RowEntry> {
    if s == [] then []
    else AtOrAbove(s[..|s| - 1], k) + if Less(s[|s| - 1].key, k) then [] else [s[|s| - 1]]
  }

  lemma {:induction false} AtOrAboveConcat(a: seq<RowEntry>, b: seq<RowEntry>, k: Key)
    ensures AtOrAbove(a + b, k) == AtOrAbove(a, k) + AtOrAbove(b, k)
  {
    hide Less;
    if b == [] {
      assert a + b == a;
    } else {
      AtOrAboveConcat(a, b[..|b| - 1], k);
      assert (a + b)[..|a + b| - 1] == a + b[..|b| - 1];
    }
  }

  lemma {:induction false} AtOrAboveMember(s: seq<RowEntry>, k: Key, i: nat)
    requires i < |AtOrAbove(s, k)|
    ensures AtOrAbove(s, k)[i] in s && !Less(AtOrAbove(s, k)[i].key, k)
  {
    hide Less;
    if s != [] && i < |AtOrAbove(s[..|s| - 1], k)| {
      AtOrAboveMember(s[..|s| - 1], k, i);
    }
  }

  lemma {:induction false} AtOrAboveNone(s: seq<RowEntry>, k: Key)
    requires forall i :: 0 <= i < |s| ==> Less(s[i].key, k)
    ensures AtOrAbove(s, k) == []
  {
    hide Less;
    if s != [] {
      AtOrAboveNone(s[..|s| - 1], k);
    }
  }

  lemma {:induction false} AtOrAboveAll(s: seq<RowEntry>, k: Key)
    requires forall i :: 0 <= i < |s| ==> !Less(s[i].key, k)
    ensures AtOrAbove(s, k) == s
  {
    hide Less;
    if s != [] {
      AtOrAboveAll(s[..|s| - 1], k);
    }
  }

  /** In a sorted table they are a suffix. */
  lemma SortedSuffix(s: seq<RowEntry>, k: Key, i: nat)
    requires Sorted(s) && i <= |s|
    requires i > 0 ==> Less(s[i - 1].key, k)
    requires i < |s| ==> !Less(s[i].key, k)
    ensures AtOrAbove(s, k) == s[i..]
  {
    hide Less, AtOrAbove;
    KeyOrder();
    assert s == s[..i] + s[i..];
    AtOrAboveConcat(s[..i], s[i..], k);
    AtOrAboveNone(s[..i], k);
    AtOrAboveAll(s[i..], k);
  }

  /** All entries, or those at or above a key. */
  function From(s: seq<RowEntry>, k: Option<Key>): seq<RowEntry> {
    if k.Some? then AtOrAbove(s, k.value) else s
  }
}
