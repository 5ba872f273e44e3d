/**
 * The page links of the pagination footer: one boundary page at each end,
 * one sibling on each side of the active page, and ellipses for the gaps.
 */
module PaginationFooter {

  const BOUNDARY_COUNT := 1
  const SIBLING_COUNT := 1

  datatype Item = Page(n: int) | StartEllipsis | EndEllipsis

  function Min(a: int, b: int): int { if a <= b then a else b }
  function Max(a: int, b: int): int { if a >= b then a else b }

  /** `Array.from({ length: end - start + 1 }, (_, i) => start + i)`; a
      negative length gives the empty array. */
  function Range(start: int, end: int): (r: seq<int>)
    ensures |r| == Max(0, end - start + 1)
    ensures forall i :: 0 <= i < |r| ==> r[i] == start + i
  {
    if end < start then [] else seq(end - start + 1, i => start + i)
  }

  function StartPages(pageCount: int): seq<int>
  {
    Range(1, Min(BOUNDARY_COUNT, pageCount))
  }

  function EndPages(pageCount: int): seq<int>
  {
    Range(Max(pageCount - BOUNDARY_COUNT + 1, BOUNDARY_COUNT + 1), pageCount)
  }

  function SiblingsStart(activePage: int, pageCount: int): int
  {
    Max(Min(activePage - SIBLING_COUNT, pageCount - BOUNDARY_COUNT - SIBLING_COUNT * 2 - 1), BOUNDARY_COUNT + 2)
  }

  function SiblingsEnd(activePage: int, pageCount: int): int
  {
    var endPages := EndPages(pageCount);
    Min(Max(activePage + SIBLING_COUNT, BOUNDARY_COUNT + SIBLING_COUNT * 2 + 2),
        if |endPages| > 0 then endPages[0] - 2 else pageCount - 1)
  }

  function AsPages(s: seq<int>): (r: seq<Item>)
    ensures |r| == |s| && forall i :: 0 <= i < |s| ==> r[i] == Page(s[i])
  {
    seq(|s|, i requires 0 <= i < |s| => Page(s[i]))
  }

  function StartGap(activePage: int, pageCount: int): seq<Item>
  {
    if SiblingsStart(activePage, pageCount) > BOUNDARY_COUNT + 2 then [StartEllipsis]
    else if BOUNDARY_COUNT + 1 < pageCount - BOUNDARY_COUNT then [Page(BOUNDARY_COUNT + 1)]
    else []
  }

  function EndGap(activePage: int, pageCount: int): seq<Item>
  {
    if SiblingsEnd(activePage, pageCount) < pageCount - BOUNDARY_COUNT - 1 then [EndEllipsis]
    else if pageCount - BOUNDARY_COUNT > BOUNDARY_COUNT then [Page(pageCount - BOUNDARY_COUNT)]
    else []
  }

  /** The `items` list, in display order. */
  function Items(activePage: int, pageCount: int): seq<Item>
  {
    AsPages(StartPages(pageCount)) + StartGap(activePage, pageCount)
      + AsPages(Range(SiblingsStart(activePage, pageCount), SiblingsEnd(activePage, pageCount)))
      + EndGap(activePage, pageCount) + AsPages(EndPages(pageCount))
  }

  /** What the footer renders: nothing for a single page. */
  function Footer(activePage: int, pageCount: int): (r: Option<seq<Item>>)
    ensures r.None? <==> pageCount <= 1
    ensures r.Some? ==> r.value == Items(activePage, pageCount)
  {
    if pageCount <= 1 then None else Some(Items(activePage, pageCount))
  }

  datatype Option<T> = None | Some(value: T)

  /** The page numbers among the items, in order. */
  function PageNumbers(items: seq<Item>): seq<int>
  {
    if items == [] then []
    else (if items[0].Page? then [items[0].n] else []) + PageNumbers(items[1..])
  }

  predicate Increasing(s: seq<int>)
  {
    forall i, j :: 0 <= i < j < |s| ==> s[i] < s[j]
  }

  lemma {:induction false} PageNumbersAppend(a: seq<Item>, b: seq<Item>)
    ensures PageNumbers(a + b) == PageNumbers(a) + PageNumbers(b)
    decreases |a|
  {
    if a == [] {
      assert a + b == b;
    } else {
      var t := a[1..] + b;
      assert a + b == [a[0]] + t;
      PageNumbersAppend(a[1..], b);
      PageNumbersCons(a[0], t);
      PageNumbersCons(a[0], a[1..]);
      assert [a[0]] + a[1..] == a;
    }
  }

  lemma PageNumbersCons(x: Item, t: seq<Item>)
    ensures PageNumbers([x] + t) == (if x.Page? then [x.n] else []) + PageNumbers(t)
  {
    assert ([x] + t)[1..] == t;
  }

  lemma {:induction false} PageNumbersOfPages(s: seq<int>)
    ensures PageNumbers(AsPages(s)) == s
    decreases |s|
  {
    if s != [] {
      PageNumbersOfPages(s[1..]);
      assert AsPages(s)[1..] == AsPages(s[1..]);
    }
  }

  lemma {:induction false} IncreasingAppend(a: seq<int>, b: seq<int>)
    requires Increasing(a) && Increasing(b)
    requires forall i, j :: 0 <= i < |a| && 0 <= j < |b| ==> a[i] < b[j]
    ensures Increasing(a + b)
  {
    forall i, j | 0 <= i < j < |a + b|
      ensures (a + b)[i] < (a + b)[j]
    {
      if j < |a| {
      } else if i >= |a| {
        assert (a + b)[i] == b[i - |a|] && (a + b)[j] == b[j - |a|];
      } else {
        assert (a + b)[j] == b[j - |a|];
      }
    }
  }

  /** The page numbers among the items, spelled out piece by piece. */
  lemma NumbersOfItems(activePage: int, pageCount: int)
    requires pageCount >= 2
    ensures PageNumbers(Items(activePage, pageCount)) ==
      [1] + PageNumbers(StartGap(activePage, pageCount))
        + Range(SiblingsStart(activePage, pageCount), SiblingsEnd(activePage, pageCount))
        + PageNumbers(EndGap(activePage, pageCount)) + [pageCount]
  {
    var a := AsPages(StartPages(pageCount));
    var g1 := StartGap(activePage, pageCount);
    var m := AsPages(Range(SiblingsStart(activePage, pageCount), SiblingsEnd(activePage, pageCount)));
    var g2 := EndGap(activePage, pageCount);
    var e := AsPages(EndPages(pageCount));
    PageNumbersAppend(a + g1 + m + g2, e);
    PageNumbersAppend(a + g1 + m, g2);
    PageNumbersAppend(a + g1, m);
    PageNumbersAppend(a, g1);
    PageNumbersOfPages(StartPages(pageCount));
    PageNumbersOfPages(Range(SiblingsStart(activePage, pageCount), SiblingsEnd(activePage, pageCount)));
    PageNumbersOfPages(EndPages(pageCount));
    assert StartPages(pageCount) == [1];
    assert EndPages(pageCount) == [pageCount];
  }

  /** The first item is page 1 and the last is the last page. */
  lemma BoundaryPages(activePage: int, pageCount: int)
    requires pageCount >= 2
    ensures Items(activePage, pageCount)[0] == Page(1)
    ensures Items(activePage, pageCount)[|Items(activePage, pageCount)| - 1] == Page(pageCount)
  {
    assert StartPages(pageCount) == [1];
    assert EndPages(pageCount) == [pageCount];
  }

  /** The item after page 1: an ellipsis exactly when the siblings start
      beyond page 3, otherwise page 2 when it is not one of the last two. */
  lemma StartGapRule(activePage: int, pageCount: int)
    requires pageCount >= 2
    ensures Items(activePage, pageCount)[1] == StartEllipsis <==> SiblingsStart(activePage, pageCount) > 3
    ensures SiblingsStart(activePage, pageCount) <= 3 && 2 < pageCount - 1 ==> Items(activePage, pageCount)[1] == Page(2)
  {
    assert StartPages(pageCount) == [1];
    assert EndPages(pageCount) == [pageCount];
    if SiblingsStart(activePage, pageCount) <= 3 && !(2 < pageCount - 1) {
      assert SiblingsEnd(activePage, pageCount) < SiblingsStart(activePage, pageCount);
    }
  }

  /** The item before the last page: an ellipsis exactly when the siblings
      end before `pageCount - 2`, otherwise `pageCount - 1` when above 1. */
  lemma EndGapRule(activePage: int, pageCount: int)
    requires pageCount >= 2
    ensures var items := Items(activePage, pageCount);
      items[|items| - 2] == EndEllipsis <==> SiblingsEnd(activePage, pageCount) < pageCount - 2
    ensures var items := Items(activePage, pageCount);
      SiblingsEnd(activePage, pageCount) >= pageCount - 2 && pageCount - 1 > 1 ==> items[|items| - 2] == Page(pageCount - 1)
  {
    assert StartPages(pageCount) == [1];
    assert EndPages(pageCount) == [pageCount];
  }

  /** What the pieces between the boundary pages hold. */
  lemma PieceFacts(activePage: int, pageCount: int)
    requires pageCount >= 2 && 1 <= activePage <= pageCount
    ensures var sS := SiblingsStart(activePage, pageCount); var sE := SiblingsEnd(activePage, pageCount);
      var n1 := PageNumbers(StartGap(activePage, pageCount)); var n2 := PageNumbers(EndGap(activePage, pageCount));
      3 <= sS && sE <= pageCount - 2 && (n1 == [] || n1 == [2]) && (n2 == [] || n2 == [pageCount - 1]) &&
      (n1 != [] ==> 2 < pageCount - 1) && (n2 != [] ==> pageCount - 1 > 1) &&
      (activePage == 1 || activePage == pageCount || sS <= activePage <= sE ||
       (activePage == 2 && n1 == [2]) || (activePage == pageCount - 1 && n2 == [pageCount - 1]))
  {
    assert EndPages(pageCount) == [pageCount];
    assert PageNumbers([StartEllipsis]) == [] && PageNumbers([EndEllipsis]) == [];
    assert PageNumbers([Page(2)]) == [2] && PageNumbers([Page(pageCount - 1)]) == [pageCount - 1];
  }

  predicate Pieces(n1: seq<int>, r: seq<int>, n2: seq<int>, pageCount: int, sS: int, sE: int)
  {
    pageCount >= 2 && 3 <= sS && sE <= pageCount - 2 && (n1 == [] || n1 == [2]) && (n2 == [] || n2 == [pageCount - 1])
    && (n1 != [] ==> 2 < pageCount - 1) && (n2 != [] ==> pageCount - 1 > 1) && r == Range(sS, sE)
  }

  predicate Below(s: seq<int>, m: int)
  {
    forall i :: 0 <= i < |s| ==> s[i] < m
  }

  predicate AtLeast(s: seq<int>, m: int)
  {
    forall i :: 0 <= i < |s| ==> m <= s[i]
  }

  /** Two increasing runs separated by `m` join into one. */
  lemma IncreasingJoin(a: seq<int>, b: seq<int>, m: int)
    requires Increasing(a) && Increasing(b) && Below(a, m) && AtLeast(b, m)
    ensures Increasing(a + b)
  {
    IncreasingAppend(a, b);
  }

  lemma BelowAppend(a: seq<int>, b: seq<int>, m: int)
    requires Below(a, m) && Below(b, m)
    ensures Below(a + b, m)
  {
    forall i | 0 <= i < |a + b| ensures (a + b)[i] < m {
      if i >= |a| {
        assert (a + b)[i] == b[i - |a|];
      }
    }
  }

  lemma RangeIncreasing(start: int, end: int)
    ensures Increasing(Range(start, end))
  {
  }

  lemma {:induction false} AssembledIncreasing(n1: seq<int>, r: seq<int>, n2: seq<int>, pageCount: int, sS: int, sE: int)
    requires Pieces(n1, r, n2, pageCount, sS, sE)
    ensures Increasing([1] + n1 + r + n2 + [pageCount])
  {
    var m := if n2 == [] then pageCount else pageCount - 1;
    IncreasingJoin([1], n1, 2);
    var a1 := [1] + n1;
    BelowAppend([1], n1, 3);
    BelowAppend([1], n1, m);
    RangeIncreasing(sS, sE);
    IncreasingJoin(a1, r, sS);
    var a2 := a1 + r;
    assert Below(r, m);
    BelowAppend(a1, r, m);
    IncreasingJoin(a2, n2, m);
    var a3 := a2 + n2;
    BelowAppend(a2, n2, pageCount);
    IncreasingJoin(a3, [pageCount], pageCount);
  }

  lemma AssembledBounded(n1: seq<int>, r: seq<int>, n2: seq<int>, pageCount: int, sS: int, sE: int)
    requires Pieces(n1, r, n2, pageCount, sS, sE)
    ensures var all := [1] + n1 + r + n2 + [pageCount];
      forall i :: 0 <= i < |all| ==> 1 <= all[i] <= pageCount
  {
  }

  lemma AssembledContains(n1: seq<int>, r: seq<int>, n2: seq<int>, pageCount: int, activePage: int, sS: int, sE: int)
    requires Pieces(n1, r, n2, pageCount, sS, sE)
    requires activePage == 1 || activePage == pageCount || sS <= activePage <= sE ||
       (activePage == 2 && n1 == [2]) || (activePage == pageCount - 1 && n2 == [pageCount - 1])
    ensures activePage in [1] + n1 + r + n2 + [pageCount]
  {
    var all := [1] + n1 + r + n2 + [pageCount];
    if activePage == 1 {
      assert all[0] == 1;
    } else if activePage == pageCount {
      assert all[|all| - 1] == pageCount;
    } else if sS <= activePage <= sE {
      assert r[activePage - sS] == activePage;
      assert all[1 + |n1| + activePage - sS] == activePage;
    } else if activePage == 2 && n1 == [2] {
      assert all[1] == 2;
    } else {
      assert all[|all| - 2] == pageCount - 1;
    }
  }

  /** For an active page in range, the page links are strictly increasing,
      stay within `1..pageCount` and include the active page. */
  lemma PageNumbersWellFormed(activePage: int, pageCount: int)
    requires pageCount >= 2 && 1 <= activePage <= pageCount
    ensures Increasing(PageNumbers(Items(activePage, pageCount)))
    ensures forall i :: 0 <= i < |PageNumbers(Items(activePage, pageCount))| ==>
      1 <= PageNumbers(Items(activePage, pageCount))[i] <= pageCount
    ensures activePage in PageNumbers(Items(activePage, pageCount))
  {
    var sS := SiblingsStart(activePage, pageCount);
    var sE := SiblingsEnd(activePage, pageCount);
    NumbersOfItems(activePage, pageCount);
    PieceFacts(activePage, pageCount);
    var n1 := PageNumbers(StartGap(activePage, pageCount));
    var n2 := PageNumbers(EndGap(activePage, pageCount));
    AssembledIncreasing(n1, Range(sS, sE), n2, pageCount, sS, sE);
    AssembledBounded(n1, Range(sS, sE), n2, pageCount, sS, sE);
    AssembledContains(n1, Range(sS, sE), n2, pageCount, activePage, sS, sE);
  }
}
