/** The dashboard's state and its transitions. The effects that recompute the list when
    a selection changes, and that clear the subline when the grade is not HG, run as
    part of the transition that triggers them. */
module Dashboard {
  import opened Wrappers
  import opened Seqs
  import opened Sorting
  import opened Kits
  import opened DashboardFilter
  import opened DashboardSort
  import opened DashboardStats
  import opened Pagination
  import opened PageNumbers

  /** The list the table pages through: the matching kits, sorted when a key is chosen. */
  function View(kits: seq<Kit>, f: Filters, sortBy: Option<SortKey>, order: SortOrder): seq<Kit> {
    SortKits(FilterKits(kits, f), sortBy, order)
  }

  /** The view lists exactly the matching kits, each as often as it occurs among them;
      without a sort key they keep the loaded order, and with one they are ordered by it. */
  lemma ViewSpec(kits: seq<Kit>, f: Filters, sortBy: Option<SortKey>, order: SortOrder)
    ensures var v := View(kits, f, sortBy, order);
      && multiset(v) == multiset(FilterKits(kits, f))
      && (forall k :: k in v <==> k in kits && Matches(k, f))
      && (sortBy.None? ==> IsSubsequence(v, kits))
      && (sortBy.Some? ==> Sorted(v, Comparator(sortBy.value, order)))
  {
    var v := View(kits, f, sortBy, order);
    SortKitsSpec(FilterKits(kits, f), sortBy, order);
    FilterKitsSpec(kits, f);
    forall k
      ensures k in v <==> k in FilterKits(kits, f)
    {
      assert k in v <==> k in multiset(v);
    }
  }

  function Max(a: int, b: int): int {
    if a >= b then a else b
  }

  /** Every state variable of the dashboard. */
  datatype Snapshot = Snapshot(
    kits: seq<Kit>,
    filteredKits: seq<Kit>,
    loading: bool,
    error: Option<string>,
    filter: Ownership,
    gradeFilter: Option<Grade>,
    sublineFilter: Option<Subline>,
    brandFilter: BrandFilter,
    exclusiveFilter: ExclusiveFilter,
    searchQuery: string,
    sortBy: Option<SortKey>,
    sortOrder: SortOrder,
    currentPage: int,
    showAll: bool
  )

  const LoadFailedMessage := "Failed to load kits"

  class DashboardState {
    var kits: seq<Kit>
    var filteredKits: seq<Kit>
    var loading: bool
    var error: Option<string>
    var filter: Ownership
    var gradeFilter: Option<Grade>
    var sublineFilter: Option<Subline>
    var brandFilter: BrandFilter
    var exclusiveFilter: ExclusiveFilter
    var searchQuery: string
    var sortBy: Option<SortKey>
    var sortOrder: SortOrder
    var currentPage: int
    var showAll: bool

    function State(): Snapshot
      reads this
    {
      Snapshot(kits, filteredKits, loading, error, filter, gradeFilter, sublineFilter,
               brandFilter, exclusiveFilter, searchQuery, sortBy, sortOrder, currentPage, showAll)
    }

    function Selection(): Filters
      reads this
    {
      Filters(searchQuery, brandFilter, gradeFilter, sublineFilter, exclusiveFilter)
    }

    function PageCount(): nat
      reads this
    {
      TotalPages(|filteredKits|)
    }

    /** The kits in the table's rows. */
    function Shown(): seq<Kit>
      reads this
    {
      CurrentKits(filteredKits, currentPage, showAll)
    }

    /** The list is the view of the loaded kits under the current selections, a subline
        is chosen only under grade HG, and the current page exists (page 1 when the list
        is empty). */
    ghost predicate Valid()
      reads this
    {
      && filteredKits == View(kits, Selection(), sortBy, sortOrder)
      && (sublineFilter.Some? ==> gradeFilter == Some(HG))
      && 1 <= currentPage <= Max(1, PageCount())
    }

    /** Whether the pagination bar is on screen: the table is shown and has more than one page. */
    predicate PaginationShown()
      reads this
    {
      !loading && PageCount() > 1
    }

    /** The dashboard as first rendered: nothing loaded yet, a load of all kits under way. */
    constructor()
      ensures Valid()
      ensures State() == Snapshot([], [], true, None, AllKits, None, None, AllBrands, AllEditions,
                                  "", None, Asc, 1, false)
    {
      kits := [];
      filteredKits := [];
      loading := true;
      error := None;
      filter := AllKits;
      gradeFilter := None;
      sublineFilter := None;
      brandFilter := AllBrands;
      exclusiveFilter := AllEditions;
      searchQuery := "";
      sortBy := None;
      sortOrder := Asc;
      currentPage := 1;
      showAll := false;
    }

    /** Recomputes the list after a change to the kits or to a selection and goes back to
        the first page. */
    method Refresh()
      modifies this
      requires sublineFilter.Some? ==> gradeFilter == Some(HG)
      ensures Valid()
      ensures State() == old(State()).(filteredKits := View(kits, Selection(), sortBy, sortOrder), currentPage := 1)
    {
      var selection := Selection();
      filteredKits := View(kits, selection, sortBy, sortOrder);
      currentPage := 1;
      assert Selection() == selection;
      assert Max(1, PageCount()) >= 1;
    }

    /** A different ownership choice starts loading its kits and clears the error. */
    method SetOwnership(o: Ownership)
      modifies this
      requires Valid()
      ensures Valid()
      ensures State() == if o == old(filter) then old(State())
                         else old(State()).(filter := o, loading := true, error := None)
    {
      if o != filter {
        filter := o;
        loading := true;
        error := None;
        assert kits == old(kits) && filteredKits == old(filteredKits);
        assert sortBy == old(sortBy) && sortOrder == old(sortOrder) && Selection() == old(Selection());
      }
    }

    /** The server answered with `data`: it becomes the loaded list. Answers are applied
        in the order they arrive, so an answer to an earlier load may come after a later
        one has already ended the loading state. */
    method LoadSucceeded(data: seq<Kit>)
      modifies this
      requires Valid()
      ensures Valid()
      ensures State() == old(State()).(kits := data, loading := false, currentPage := 1,
                                       filteredKits := View(data, Selection(), sortBy, sortOrder))
    {
      kits := data;
      Refresh();
      ghost var refreshed := State();
      loading := false;
      assert State() == refreshed.(loading := false) && Selection() == old(Selection());
    }

    /** The load failed: its message is shown, or a generic one when it has none, and the
        previously loaded kits stay. */
    method LoadFailed(message: Option<string>)
      modifies this
      requires Valid()
      ensures Valid()
      ensures State() == old(State()).(loading := false,
                                       error := Some(if message.Some? then message.value else LoadFailedMessage))
    {
      error := Some(if message.Some? then message.value else LoadFailedMessage);
      loading := false;
      assert kits == old(kits) && filteredKits == old(filteredKits);
      assert sortBy == old(sortBy) && sortOrder == old(sortOrder) && Selection() == old(Selection());
    }

    /** A kit was deleted on the server: every kit with that id leaves the loaded list. */
    method DeleteKit(id: string)
      modifies this
      requires Valid()
      ensures Valid()
      ensures kits == Filter(old(kits), (k: Kit) => k.id != id)
      ensures State() == old(State()).(kits := kits, filteredKits := View(kits, Selection(), sortBy, sortOrder),
                                       currentPage := 1)
    {
      kits := Filter(kits, (k: Kit) => k.id != id);
      Refresh();
    }

    method SetSearchQuery(q: string)
      modifies this
      requires Valid()
      ensures Valid()
      ensures State() == if q == old(searchQuery) then old(State())
                         else old(State()).(searchQuery := q, currentPage := 1,
                                            filteredKits := View(kits, Selection(), sortBy, sortOrder))
    {
      if q != searchQuery {
        searchQuery := q;
        Refresh();
      }
    }

    method SetBrandFilter(b: BrandFilter)
      modifies this
      requires Valid()
      ensures Valid()
      ensures State() == if b == old(brandFilter) then old(State())
                         else old(State()).(brandFilter := b, currentPage := 1,
                                            filteredKits := View(kits, Selection(), sortBy, sortOrder))
    {
      if b != brandFilter {
        brandFilter := b;
        Refresh();
      }
    }

    /** Choosing a grade other than HG also clears the subline selection. */
    method SetGradeFilter(g: Option<Grade>)
      modifies this
      requires Valid()
      ensures Valid()
      ensures State() == if g == old(gradeFilter) then old(State())
                         else old(State()).(gradeFilter := g, currentPage := 1,
                                            sublineFilter := if g == Some(HG) then old(sublineFilter) else None,
                                            filteredKits := View(kits, Selection(), sortBy, sortOrder))
    {
      if g != gradeFilter {
        gradeFilter := g;
        if g != Some(HG) {
          sublineFilter := None;
        }
        assert State() == old(State()).(gradeFilter := g,
                                        sublineFilter := if g == Some(HG) then old(sublineFilter) else None);
        Refresh();
      }
    }

    /** The subline buttons are on screen only while grade HG is chosen. */
    method SetSublineFilter(s: Option<Subline>)
      modifies this
      requires Valid() && gradeFilter == Some(HG)
      ensures Valid()
      ensures State() == if s == old(sublineFilter) then old(State())
                         else old(State()).(sublineFilter := s, currentPage := 1,
                                            filteredKits := View(kits, Selection(), sortBy, sortOrder))
    {
      if s != sublineFilter {
        sublineFilter := s;
        Refresh();
      }
    }

    method SetExclusiveFilter(e: ExclusiveFilter)
      modifies this
      requires Valid()
      ensures Valid()
      ensures State() == if e == old(exclusiveFilter) then old(State())
                         else old(State()).(exclusiveFilter := e, currentPage := 1,
                                            filteredKits := View(kits, Selection(), sortBy, sortOrder))
    {
      if e != exclusiveFilter {
        exclusiveFilter := e;
        Refresh();
      }
    }

    method SetSortBy(key: Option<SortKey>)
      modifies this
      requires Valid()
      ensures Valid()
      ensures State() == if key == old(sortBy) then old(State())
                         else old(State()).(sortBy := key, currentPage := 1,
                                            filteredKits := View(kits, Selection(), key, sortOrder))
    {
      if key != sortBy {
        sortBy := key;
        Refresh();
      }
    }

    /** The order buttons are on screen only while a sort key is chosen. */
    method SetSortOrder(order: SortOrder)
      modifies this
      requires Valid() && sortBy.Some?
      ensures Valid()
      ensures State() == if order == old(sortOrder) then old(State())
                         else old(State()).(sortOrder := order, currentPage := 1,
                                            filteredKits := View(kits, Selection(), sortBy, order))
    {
      if order != sortOrder {
        sortOrder := order;
        Refresh();
      }
    }

    /** "Show All" / "Show Pages": leaving the show-all view goes back to page 1. */
    method ToggleShowAll()
      modifies this
      requires Valid() && PaginationShown()
      ensures Valid()
      ensures State() == old(State()).(showAll := !old(showAll),
                                       currentPage := if old(showAll) then 1 else old(currentPage))
    {
      var wasShowingAll := showAll;
      showAll := !showAll;
      if wasShowingAll {
        currentPage := 1;
      }
    }

    /** "Previous": one page back, never before page 1. */
    method PreviousPage()
      modifies this
      requires Valid() && PaginationShown() && !showAll
      ensures Valid()
      ensures State() == old(State()).(currentPage := Max(1, old(currentPage) - 1))
    {
      currentPage := Max(1, currentPage - 1);
    }

    /** "Next": one page on, never past the last page. */
    method NextPage()
      modifies this
      requires Valid() && PaginationShown() && !showAll
      ensures Valid()
      ensures State() == old(State()).(currentPage := Min(PageCount(), old(currentPage) + 1))
    {
      currentPage := Min(PageCount(), currentPage + 1);
    }

    /** A page-number button: only the numbers of the current window have one. */
    method GoToPage(p: int)
      modifies this
      requires Valid() && PaginationShown() && !showAll
      requires PageNumber(p) in PageWindow(PageCount(), currentPage)
      ensures Valid()
      ensures State() == old(State()).(currentPage := p)
    {
      WindowNumbersWithin(PageCount(), currentPage);
      currentPage := p;
    }

    /** In a consistent state the table shows the whole list under "Show All", and
        otherwise page `currentPage` of it, which is not empty unless the list is. */
    lemma ShownRows()
      requires Valid()
      ensures showAll ==> Shown() == filteredKits
      ensures !showAll && filteredKits != [] ==>
        && Shown() == filteredKits[(currentPage - 1) * ItemsPerPage .. Min(currentPage * ItemsPerPage, |filteredKits|)]
        && 1 <= |Shown()| <= ItemsPerPage
    {
      if !showAll && filteredKits != [] {
        TotalPagesIsCeiling(|filteredKits|);
        PageContents(filteredKits, currentPage);
      }
    }
  }
}
