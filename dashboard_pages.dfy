/** The page buttons under the table: every page when there are at most seven, and
    otherwise a window of seven tokens around the current page with ellipses. */
module PageNumbers {

  datatype PageToken = PageNumber(n: int) | Ellipsis

  const MaxPagesToShow: nat := 7

  /** The page numbers `a` to `b`. */
  function Range(a: int, b: int): (r: seq<PageToken>)
    ensures |r| == if a <= b then b - a + 1 else 0
    ensures forall i :: 0 <= i < |r| ==> r[i] == PageNumber(a + i)
    decreases b - a
  {
    if a > b then [] else [PageNumber(a)] + Range(a + 1, b)
  }

  lemma RangeExtend(a: int, b: int)
    requires a <= b + 1
    ensures Range(a, b) + [PageNumber(b + 1)] == Range(a, b + 1)
  {
  }

  /** The tokens for `totalPages` pages while page `currentPage` is shown: near the
      beginning, near the end, or in the middle of the page range. */
  function PageWindow(totalPages: int, currentPage: int): seq<PageToken> {
    if totalPages <= MaxPagesToShow then Range(1, totalPages)
    else if currentPage <= 3 then [PageNumber(1)] + Range(2, 5) + [Ellipsis, PageNumber(totalPages)]
    else if currentPage >= totalPages - 2 then [PageNumber(1), Ellipsis] + Range(totalPages - 4, totalPages)
    else
      [PageNumber(1), Ellipsis] + Range(currentPage - 1, currentPage + 1)
      + [Ellipsis, PageNumber(totalPages)]
  }

  /** `getPageNumbers`: pushes the tokens one by one. */
  method GetPageNumbers(totalPages: nat, currentPage: int) returns (pages: seq<PageToken>)
    ensures pages == PageWindow(totalPages, currentPage)
  {
    pages := [];
    if totalPages <= MaxPagesToShow {
      var i := 1;
      while i <= totalPages
        invariant 1 <= i <= totalPages + 1
        invariant pages == Range(1, i - 1)
      {
        RangeExtend(1, i - 1);
        pages := pages + [PageNumber(i)];
        i := i + 1;
      }
    } else {
      pages := pages + [PageNumber(1)];
      if currentPage <= 3 {
        var i := 2;
        while i <= 5
          invariant 2 <= i <= 6
          invariant pages == [PageNumber(1)] + Range(2, i - 1)
        {
          RangeExtend(2, i - 1);
          pages := pages + [PageNumber(i)];
          i := i + 1;
        }
        pages := pages + [Ellipsis];
        pages := pages + [PageNumber(totalPages)];
      } else if currentPage >= totalPages - 2 {
        pages := pages + [Ellipsis];
        var i := totalPages - 4;
        while i <= totalPages
          invariant totalPages - 4 <= i <= totalPages + 1
          invariant pages == [PageNumber(1), Ellipsis] + Range(totalPages - 4, i - 1)
        {
          RangeExtend(totalPages - 4, i - 1);
          pages := pages + [PageNumber(i)];
          i := i + 1;
        }
      } else {
        pages := pages + [Ellipsis];
        var i := currentPage - 1;
        while i <= currentPage + 1
          invariant currentPage - 1 <= i <= currentPage + 2
          invariant pages == [PageNumber(1), Ellipsis] + Range(currentPage - 1, i - 1)
        {
          RangeExtend(currentPage - 1, i - 1);
          pages := pages + [PageNumber(i)];
          i := i + 1;
        }
        pages := pages + [Ellipsis];
        pages := pages + [PageNumber(totalPages)];
      }
    }
  }

  /** The page numbers among the tokens strictly increase from left to right. */
  ghost predicate IncreasingNumbers(r: seq<PageToken>) {
    forall i, j :: 0 <= i < j < |r| && r[i].PageNumber? && r[j].PageNumber? ==> r[i].n < r[j].n
  }

  /** Every page number among the tokens is a page that exists. */
  ghost predicate NumbersWithin(r: seq<PageToken>, totalPages: int) {
    forall i :: 0 <= i < |r| && r[i].PageNumber? ==> 1 <= r[i].n <= totalPages
  }

  /** An ellipsis stands between two page numbers exactly where pages are skipped. */
  ghost predicate GapsMarked(r: seq<PageToken>) {
    && (forall i :: 0 <= i < |r| && r[i].Ellipsis? ==>
          && 0 < i < |r| - 1 && r[i - 1].PageNumber? && r[i + 1].PageNumber?
          && r[i - 1].n + 1 < r[i + 1].n)
    && (forall i :: 0 <= i < |r| - 1 && r[i].PageNumber? && r[i + 1].PageNumber? ==>
          r[i + 1].n == r[i].n + 1)
  }

  /** Up to seven pages, every page is listed, in order. */
  lemma SmallWindowListsEveryPage(totalPages: nat, currentPage: int)
    requires totalPages <= MaxPagesToShow
    ensures var r := PageWindow(totalPages, currentPage);
      |r| == totalPages && forall i :: 0 <= i < |r| ==> r[i] == PageNumber(i + 1)
  {
  }

  /** The properties every window of more than seven pages has. */
  ghost predicate WellFormedWindow(r: seq<PageToken>, totalPages: int) {
    && |r| == MaxPagesToShow
    && r[0] == PageNumber(1) && r[|r| - 1] == PageNumber(totalPages)
    && IncreasingNumbers(r) && NumbersWithin(r, totalPages) && GapsMarked(r)
  }

  /** Beyond seven pages, the window has exactly seven tokens, starts at page 1, ends at
      the last page, and lists existing pages in increasing order with ellipses exactly at
      the gaps. */
  lemma LargeWindowShape(totalPages: nat, currentPage: int)
    requires totalPages > MaxPagesToShow
    ensures WellFormedWindow(PageWindow(totalPages, currentPage), totalPages)
  {
    var r := PageWindow(totalPages, currentPage);
    var T := totalPages;
    if currentPage <= 3 {
      assert r == [PageNumber(1), PageNumber(2), PageNumber(3), PageNumber(4), PageNumber(5), Ellipsis, PageNumber(T)];
      NearStartWellFormed(T);
    } else if currentPage >= totalPages - 2 {
      assert r == [PageNumber(1), Ellipsis, PageNumber(T - 4), PageNumber(T - 3), PageNumber(T - 2), PageNumber(T - 1), PageNumber(T)];
      NearEndWellFormed(T);
    } else {
      var c := currentPage;
      assert r == [PageNumber(1), Ellipsis, PageNumber(c - 1), PageNumber(c), PageNumber(c + 1), Ellipsis, PageNumber(T)];
      MiddleWellFormed(T, c);
    }
  }

  lemma NearStartWellFormed(T: int)
    requires T > MaxPagesToShow
    ensures WellFormedWindow([PageNumber(1), PageNumber(2), PageNumber(3), PageNumber(4), PageNumber(5), Ellipsis, PageNumber(T)], T)
  {
  }

  lemma NearEndWellFormed(T: int)
    requires T > MaxPagesToShow
    ensures WellFormedWindow([PageNumber(1), Ellipsis, PageNumber(T - 4), PageNumber(T - 3), PageNumber(T - 2), PageNumber(T - 1), PageNumber(T)], T)
  {
  }

  lemma MiddleWellFormed(T: int, c: int)
    requires T > MaxPagesToShow && 3 < c < T - 2
    ensures WellFormedWindow([PageNumber(1), Ellipsis, PageNumber(c - 1), PageNumber(c), PageNumber(c + 1), Ellipsis, PageNumber(T)], T)
  {
  }

  /** Every token that is a number names an existing page, whatever the current page. */
  lemma WindowNumbersWithin(totalPages: nat, currentPage: int)
    ensures NumbersWithin(PageWindow(totalPages, currentPage), totalPages)
  {
    if totalPages > MaxPagesToShow {
      LargeWindowShape(totalPages, currentPage);
    }
  }

  /** The current page always has a button. */
  lemma CurrentPageShown(totalPages: nat, currentPage: int)
    requires 1 <= currentPage <= totalPages
    ensures PageNumber(currentPage) in PageWindow(totalPages, currentPage)
  {
    var r := PageWindow(totalPages, currentPage);
    if totalPages <= MaxPagesToShow {
      assert r[currentPage - 1] == PageNumber(currentPage);
    } else if currentPage <= 3 {
      assert r[currentPage - 1] == PageNumber(currentPage);
    } else if currentPage >= totalPages - 2 {
      assert r[currentPage - totalPages + 6] == PageNumber(currentPage);
    } else {
      assert r[3] == PageNumber(currentPage);
    }
  }

  /** Ten pages with page 5 shown: 1 ... 4 5 6 ... 10. */
  lemma MiddleWindowExample()
    ensures PageWindow(10, 5) == [PageNumber(1), Ellipsis, PageNumber(4), PageNumber(5), PageNumber(6), Ellipsis, PageNumber(10)]
  {
  }
}
