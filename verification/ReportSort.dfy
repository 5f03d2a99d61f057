/**
 Sorting report IDs: `qsort` with a comparator that subtracts 64-bit numbers, and so orders them only as long
 as no difference overflows.
 */
module ReportSort {
  import opened ReportNames

  function Insert(x: int, s: seq<int>): (r: seq<int>)
    ensures |r| == |s| + 1
  {
    if s == [] then [x] else if x <= s[0] then [x] + s else [s[0]] + Insert(x, s[1..])
  }

  /** The sorted permutation. */
  function Sort(s: seq<int>): (r: seq<int>)
    ensures |r| == |s|
  {
    if s == [] then [] else Insert(s[0], Sort(s[1..]))
  }

  lemma ConsCounts(x: int, s: seq<int>)
    ensures multiset([x] + s) == multiset(s) + multiset{x}
  {
  }

  lemma {:induction false} InsertAdds(x: int, s: seq<int>)
    ensures multiset(Insert(x, s)) == multiset(s) + multiset{x}
  {
    if s == [] || x <= s[0] {
      assert Insert(x, s) == [x] + s;
      hide Insert;
      ConsCounts(x, s);
    } else {
      assert Insert(x, s) == [s[0]] + Insert(x, s[1..]) && s == [s[0]] + s[1..];
      InsertAdds(x, s[1..]);
      hide Insert;
      ConsCounts(s[0], s[1..]);
      ConsCounts(s[0], Insert(x, s[1..]));
    }
  }

  lemma {:induction false} InsertMembers(x: int, s: seq<int>, y: int)
    requires y in Insert(x, s)
    ensures y == x || y in s
  {
    InsertAdds(x, s);
    hide Insert;
    assert y in multiset(Insert(x, s));
  }

  /** The sort is a permutation. */
  lemma {:induction false} SortPermutes(s: seq<int>)
    ensures multiset(Sort(s)) == multiset(s)
  {
    if s != [] {
      SortPermutes(s[1..]);
      InsertAdds(s[0], Sort(s[1..]));
      assert s == [s[0]] + s[1..];
    }
  }

  predicate Sorted(s: seq<int>) {
    forall i, j | 0 <= i < j < |s| :: s[i] <= s[j]
  }

  lemma SortedCons(x: int, s: seq<int>)
    requires Sorted(s) && forall y | y in s :: x <= y
    ensures Sorted([x] + s)
  {
    var r := [x] + s;
    forall i, j | 0 <= i < j < |r| ensures r[i] <= r[j] {
      assert r[j] == s[j - 1] && s[j - 1] in s;
    }
  }

  lemma {:induction false} InsertSorted(x: int, s: seq<int>)
    requires Sorted(s)
    ensures Sorted(Insert(x, s))
  {
    if s == [] {
    } else if x <= s[0] {
      assert Insert(x, s) == [x] + s;
      hide Insert;
      SortedCons(x, s);
    } else {
      assert Insert(x, s) == [s[0]] + Insert(x, s[1..]);
      SortedTail(s);
      InsertSorted(x, s[1..]);
      hide Insert;
      forall y | y in Insert(x, s[1..]) ensures s[0] <= y {
        InsertMembers(x, s[1..], y);
      }
      SortedCons(s[0], Insert(x, s[1..]));
    }
  }

  lemma {:induction false} SortSorted(s: seq<int>)
    ensures Sorted(Sort(s))
  {
    if s != [] {
      SortSorted(s[1..]);
      InsertSorted(s[0], Sort(s[1..]));
    }
  }

  lemma SortMembers(s: seq<int>, x: int)
    ensures x in Sort(s) <==> x in s
  {
    SortPermutes(s);
    assert x in Sort(s) <==> x in multiset(Sort(s));
    assert x in s <==> x in multiset(s);
  }

  lemma {:induction false} SortedPermutations(a: seq<int>, b: seq<int>)
    requires Sorted(a) && Sorted(b) && multiset(a) == multiset(b)
    ensures a == b
  {
    if a == [] || b == [] {
      assert |multiset(a)| == |multiset(b)|;
    } else {
      assert a[0] in multiset(b) && b[0] in multiset(a);
      HeadIsLeast(a, b[0]);
      HeadIsLeast(b, a[0]);
      SameTails(a, b);
      SortedTail(a);
      SortedTail(b);
      hide Sorted;
      SortedPermutations(a[1..], b[1..]);
      assert a == [a[0]] + a[1..] && b == [b[0]] + b[1..];
    }
  }

  lemma SameTails(a: seq<int>, b: seq<int>)
    requires a != [] && b != [] && a[0] == b[0] && multiset(a) == multiset(b)
    ensures multiset(a[1..]) == multiset(b[1..])
  {
    assert a == [a[0]] + a[1..] && b == [b[0]] + b[1..];
    assert multiset(a[1..]) == multiset(a) - multiset{a[0]};
  }

  lemma SortedTail(s: seq<int>)
    requires Sorted(s) && s != []
    ensures Sorted(s[1..])
  {
  }

  lemma HeadIsLeast(s: seq<int>, x: int)
    requires Sorted(s) && s != [] && x in multiset(s)
    ensures s[0] <= x
  {
  }

  lemma SortAppends(a: seq<int>, b: seq<int>)
    requires forall x, y | x in a && y in b :: x <= y
    ensures Sort(a + b) == Sort(a) + Sort(b)
  {
    hide Sort;
    SortPermutes(a);
    SortPermutes(b);
    SortPermutes(a + b);
    SortSorted(a);
    SortSorted(b);
    SortSorted(a + b);
    forall i, j | 0 <= i < |Sort(a)| && 0 <= j < |Sort(b)| ensures Sort(a)[i] <= Sort(b)[j] {
      SortMembers(a, Sort(a)[i]);
      SortMembers(b, Sort(b)[j]);
    }
    SortedPermutations(Sort(a + b), Sort(a) + Sort(b));
  }

  // -------------------------------------------------------------------------------------------- the comparator

  /** A difference as 64 bits hold it. */
  function Wrapped(d: int): int {
    var w := d % TWO_64;
    if w < TWO_63 then w else w - TWO_64
  }

  function CompareInt64(a: int, b: int): int {
    var diff := Wrapped(a - b);
    if diff < 0 then -1 else if diff > 0 then 1 else 0
  }

  predicate IsInt64(x: int) {
    -TWO_63 <= x < TWO_63
  }

  /** The comparator tells how two numbers compare exactly if their difference fits 64 bits. */
  lemma ComparesExactly(a: int, b: int)
    requires IsInt64(a) && IsInt64(b)
    ensures (CompareInt64(a, b) < 0 <==> a < b) && (CompareInt64(a, b) > 0 <==> a > b) <==> IsInt64(a - b)
  {
  }

  /** No difference within the buffer overflows. */
  ghost predicate Comparable(s: seq<int>) {
    forall x, y | x in s && y in s :: x - y < TWO_63
  }

  function InsertBy(x: int, s: seq<int>): (r: seq<int>)
    ensures |r| == |s| + 1
  {
    if s == [] then [x] else if CompareInt64(x, s[0]) <= 0 then [x] + s else [s[0]] + InsertBy(x, s[1..])
  }

  /** A sort that asks the comparator. */
  function SortBy(s: seq<int>): (r: seq<int>)
    ensures |r| == |s|
  {
    if s == [] then [] else InsertBy(s[0], SortBy(s[1..]))
  }

  lemma {:induction false} InsertByAdds(x: int, s: seq<int>)
    ensures multiset(InsertBy(x, s)) == multiset(s) + multiset{x}
  {
    if s != [] && CompareInt64(x, s[0]) > 0 {
      InsertByAdds(x, s[1..]);
      assert s == [s[0]] + s[1..];
    }
  }

  lemma {:induction false} SortByPermutes(s: seq<int>)
    ensures multiset(SortBy(s)) == multiset(s)
  {
    if s != [] {
      SortByPermutes(s[1..]);
      InsertByAdds(s[0], SortBy(s[1..]));
      assert s == [s[0]] + s[1..];
    }
  }

  lemma {:induction false} InsertByIsInsert(x: int, s: seq<int>)
    requires forall y | y in s :: -TWO_63 < x - y < TWO_63
    ensures InsertBy(x, s) == Insert(x, s)
  {
    if s != [] {
      assert s[0] in s && CompareInt64(x, s[0]) <= 0 <==> x <= s[0];
      assert forall y | y in s[1..] :: y in s;
      InsertByIsInsert(x, s[1..]);
    }
  }

  /** Without overflow it is the sort. */
  lemma {:induction false} SortByIsSort(s: seq<int>)
    requires Comparable(s)
    ensures SortBy(s) == Sort(s)
  {
    if s != [] {
      assert s[0] in s && forall y | y in s[1..] :: y in s;
      SortByIsSort(s[1..]);
      forall y | y in Sort(s[1..]) ensures -TWO_63 < s[0] - y < TWO_63 {
        SortMembers(s[1..], y);
      }
      InsertByIsInsert(s[0], Sort(s[1..]));
    }
  }

  /** `qsort` of the first `n` entries: always a permutation, and in order where no difference overflows. */
  method Qsort(a: array<int>, n: nat)
    requires n <= a.Length
    modifies a
    ensures multiset(a[..n]) == multiset(old(a[..n])) && a[n..] == old(a[n..])
    ensures Comparable(old(a[..n])) ==> a[..n] == Sort(old(a[..n]))
  {
    hide SortBy, Sort, Comparable;
    var sorted := SortBy(a[..n]);
    SortByPermutes(a[..n]);
    if Comparable(a[..n]) {
      SortByIsSort(a[..n]);
    }
    forall j | 0 <= j < n {
      a[j] := sorted[j];
    }
    assert a[..n] == sorted;
  }

  // ----------------------------------------------------------------------------------- asking for too many IDs

  /**
   The sort covers the whole buffer. When that is longer than the IDs, and no difference overflows, the IDs come
   first exactly if no leftover entry is smaller than one of them.
   */
  lemma LeftoversSortedIn(ids: seq<int>, leftover: seq<int>)
    requires Comparable(ids + leftover)
    ensures SortBy(ids + leftover)[..|ids|] == Sort(ids) <==> forall x, y | x in ids && y in leftover :: x <= y
  {
    SortByIsSort(ids + leftover);
    SortSorted(ids + leftover);
    SortPermutes(ids);
    SortPermutes(ids + leftover);
    hide Sort, SortBy;
    if forall x, y | x in ids && y in leftover :: x <= y {
      SortAppends(ids, leftover);
    } else if Sort(ids + leftover)[..|ids|] == Sort(ids) {
      FrontIsBelowRest(ids, leftover, Sort(ids + leftover));
    }
  }

  lemma FrontIsBelowRest(ids: seq<int>, leftover: seq<int>, sorted: seq<int>)
    requires Sorted(sorted) && multiset(sorted) == multiset(ids) + multiset(leftover)
    requires |ids| <= |sorted| && multiset(sorted[..|ids|]) == multiset(ids)
    ensures forall x, y | x in ids && y in leftover :: x <= y
  {
    var front, back := sorted[..|ids|], sorted[|ids|..];
    assert sorted == front + back && multiset(front + back) == multiset(front) + multiset(back);
    forall x, y | x in ids && y in leftover ensures x <= y {
      assert multiset(sorted)[y] == multiset(front)[y] + multiset(back)[y];
      assert x in multiset(front) && y in multiset(back);
      var i :| 0 <= i < |front| && front[i] == x;
      var j :| 0 <= j < |back| && back[j] == y;
      assert sorted[i] == x && sorted[|ids| + j] == y;
    }
  }

  /** Where a difference overflows, a smaller leftover can come last: the least number of all, after the ID 1. */
  lemma OverflowHidesLeftover()
    ensures SortBy([1] + [-TWO_63]) == [1, -TWO_63] && !Comparable([1] + [-TWO_63])
  {
    var s := [1] + [-TWO_63];
    assert s[1..] == [-TWO_63] && s[1..][1..] == [];
    assert SortBy(s[1..]) == [-TWO_63];
    assert 1 in s && -TWO_63 in s;
  }
}
