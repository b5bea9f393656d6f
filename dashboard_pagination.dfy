/** Pagination of the filtered list: pages of twenty kits, the slice shown for the
    current page, and the "Showing a to b of n" range. */
module Pagination {

  const ItemsPerPage: nat := 20

  /** `Math.ceil(n / ItemsPerPage)`. */
  function TotalPages(n: nat): nat {
    (n + ItemsPerPage - 1) / ItemsPerPage
  }

  /** The page count is the ceiling of n / 20: the least number of pages holding n kits. */
  lemma TotalPagesIsCeiling(n: nat)
    ensures n <= TotalPages(n) * ItemsPerPage < n + ItemsPerPage
    ensures TotalPages(n) == 0 <==> n == 0
  {
  }

  /** Where `Array.prototype.slice` starts or ends for an index: a negative index counts
      from the end, and the result is clamped to the list. */
  function SliceIndex(len: nat, i: int): (r: nat)
    ensures r <= len
  {
    if i < 0 then (if len + i < 0 then 0 else len + i) else if i > len then len else i
  }

  function Slice<T>(s: seq<T>, start: int, end: int): seq<T> {
    var from, to := SliceIndex(|s|, start), SliceIndex(|s|, end);
    if from >= to then [] else s[from..to]
  }

  /** The kits of page `page`, counting from 1. */
  function PageSlice<T>(s: seq<T>, page: int): seq<T> {
    var startIndex := (page - 1) * ItemsPerPage;
    Slice(s, startIndex, startIndex + ItemsPerPage)
  }

  /** The list shown in the table: the whole list under "Show All", else the current page. */
  function CurrentKits<T>(s: seq<T>, page: int, showAll: bool): seq<T> {
    if showAll then s else PageSlice(s, page)
  }

  function Min(a: int, b: int): int {
    if a <= b then a else b
  }

  /** Page p holds positions (p - 1) * 20 up to p * 20 of the list, or up to its end;
      every page but the last is full, and no page is empty. */
  lemma PageContents<T>(s: seq<T>, p: int)
    requires 1 <= p <= TotalPages(|s|)
    ensures (p - 1) * ItemsPerPage < |s|
    ensures PageSlice(s, p) == s[(p - 1) * ItemsPerPage .. Min(p * ItemsPerPage, |s|)]
    ensures 1 <= |PageSlice(s, p)| <= ItemsPerPage
    ensures p < TotalPages(|s|) ==> |PageSlice(s, p)| == ItemsPerPage
  {
    TotalPagesIsCeiling(|s|);
  }

  /** Pages `first` to `last` joined in order. */
  function JoinPages<T>(s: seq<T>, first: int, last: int): seq<T>
    decreases last - first
  {
    if first > last then [] else PageSlice(s, first) + JoinPages(s, first + 1, last)
  }

  /** The pages from `p` on, joined in order, are the list from page p's first position. */
  lemma {:induction false} JoinPagesFrom<T>(s: seq<T>, p: int)
    requires 1 <= p <= TotalPages(|s|) + 1
    ensures JoinPages(s, p, TotalPages(|s|)) == s[Min((p - 1) * ItemsPerPage, |s|)..]
    decreases TotalPages(|s|) + 1 - p
  {
    TotalPagesIsCeiling(|s|);
    if p <= TotalPages(|s|) {
      JoinPagesFrom(s, p + 1);
      PageContents(s, p);
      if p < TotalPages(|s|) {
        assert s[(p - 1) * ItemsPerPage..] == s[(p - 1) * ItemsPerPage .. p * ItemsPerPage] + s[p * ItemsPerPage..];
      }
    }
  }

  /** Reading every page in order reads the whole list once. */
  lemma PagesPartitionList<T>(s: seq<T>)
    ensures JoinPages(s, 1, TotalPages(|s|)) == s
  {
    JoinPagesFrom(s, 1);
  }

  /** The "Showing from to to of n kits" numbers for a page. */
  function ShownRange(n: nat, page: int): (int, int) {
    var startIndex := (page - 1) * ItemsPerPage;
    (startIndex + 1, Min(startIndex + ItemsPerPage, n))
  }

  /** The range the label announces is exactly the slice on display, numbered from 1. */
  lemma ShownRangeMatchesPage<T>(s: seq<T>, p: int)
    requires 1 <= p <= TotalPages(|s|)
    ensures var (from, to) := ShownRange(|s|, p);
      1 <= from <= to <= |s| && PageSlice(s, p) == s[from - 1..to]
  {
    PageContents(s, p);
  }
}
