/** The category screen's browse state machine (src/screens/Category_wise_Books.js):
    the filter and sort settings, the `/Books/search` and `/Books` requests they
    produce, how a response page is merged into the list, the error resets,
    the infinite-scroll guard and the wishlist. Each handler together with the
    response it awaits is one atomic step; the response is a parameter and the
    request the handler sends is returned. */
module CategoryBooks {
  import opened Wrappers
  import opened Text
  import opened Api

  datatype SortOrder = Asc | Desc

  function SortOrderText(o: SortOrder): string {
    match o
    case Asc => "asc"
    case Desc => "desc"
  }

  /** The screen's `filters` object. */
  datatype Filters = Filters(
    bestSellers: bool,
    newReleases: bool,
    availableOnly: bool,
    sortBy: string,
    sortOrder: SortOrder)

  const InitialFilters := Filters(false, false, false, "title", Asc)

  /** The three boolean keys the filter buttons pass to `handleFilterToggle`. */
  datatype FilterKey = BestSellers | NewReleases | AvailableOnly

  function FilterValue(f: Filters, key: FilterKey): bool {
    match key
    case BestSellers => f.bestSellers
    case NewReleases => f.newReleases
    case AvailableOnly => f.availableOnly
  }

  /** `{ ...prev, [key]: !prev[key] }`: exactly the named flag flips. */
  function Flipped(f: Filters, key: FilterKey): (r: Filters)
    ensures FilterValue(r, key) == !FilterValue(f, key)
    ensures forall k :: k != key ==> FilterValue(r, k) == FilterValue(f, k)
    ensures r.sortBy == f.sortBy && r.sortOrder == f.sortOrder
  {
    match key
    case BestSellers => f.(bestSellers := !f.bestSellers)
    case NewReleases => f.(newReleases := !f.newReleases)
    case AvailableOnly => f.(availableOnly := !f.availableOnly)
  }

  /** Flipping the same filter twice restores the filters. */
  lemma FlipTwice(f: Filters, key: FilterKey)
    ensures Flipped(Flipped(f, key), key) == f
  {
  }

  /** The sort button: the order alternates, the sort key is pinned to
      "title" and the three filter flags are untouched. */
  function SortToggled(f: Filters): (r: Filters)
    ensures r.sortOrder != f.sortOrder && r.sortBy == "title"
    ensures forall k :: FilterValue(r, k) == FilterValue(f, k)
  {
    f.(sortOrder := if f.sortOrder == Asc then Desc else Asc, sortBy := "title")
  }

  /** Two sort toggles restore the sort order, and the whole filter object
      once it sorts by title. */
  lemma SortToggleTwice(f: Filters)
    ensures SortToggled(SortToggled(f)).sortOrder == f.sortOrder
    ensures f.sortBy == "title" ==> SortToggled(SortToggled(f)) == f
  {
  }

  /** The fixed page size of `/api/v1/Books/search` requests. */
  const SearchPageSize := 20
  /** The screen's `pageSize`, sent with `/api/v1/Books` requests. */
  const BrowsePageSize := 1

  /** The keys every `/Books/search` request carries. */
  const SearchKeys: set<Key> :=
    {Key.categoryId, Key.title, Key.bestSellers, Key.newReleases, Key.sortBy, Key.sortOrder, Key.page, Key.pageSize}

  /** The query parameters `fetchFilteredBooks` sends. */
  function SearchParams(categoryId: Option<int>, search: string, active: Filters, pageNo: int): Params {
    var params := map[
      Key.categoryId := OptionalInt(categoryId),
      Key.title := Str(search),
      Key.bestSellers := Bool(active.bestSellers),
      Key.newReleases := Bool(active.newReleases),
      Key.sortBy := Str(active.sortBy),
      Key.sortOrder := Str(SortOrderText(active.sortOrder)),
      Key.page := Int(pageNo),
      Key.pageSize := Int(SearchPageSize)];
    if active.availableOnly then params[Key.availableOnly := Bool(true)] else params
  }

  /** A search request carries every key of `SearchKeys`, with the query as
      title and a page size of 20, plus `availableOnly: true` only when that
      filter is on; when it is off the key is absent rather than false. */
  lemma SearchParamsShape(categoryId: Option<int>, search: string, active: Filters, pageNo: int)
    ensures var r := SearchParams(categoryId, search, active, pageNo);
      && r.Keys == (if active.availableOnly then SearchKeys + {Key.availableOnly} else SearchKeys)
      && r[Key.title] == Str(search) && r[Key.page] == Int(pageNo) && r[Key.pageSize] == Int(SearchPageSize)
      && r[Key.bestSellers] == Bool(active.bestSellers) && r[Key.newReleases] == Bool(active.newReleases)
      && (Key.availableOnly in r ==> r[Key.availableOnly] == Bool(true))
  {
  }

  /** Turning `availableOnly` on adds that one key and changes nothing else in
      the request. */
  lemma AvailableOnlyAddsOneKey(categoryId: Option<int>, search: string, active: Filters, pageNo: int)
    ensures var off := SearchParams(categoryId, search, active.(availableOnly := false), pageNo);
      var on := SearchParams(categoryId, search, active.(availableOnly := true), pageNo);
      off == on - {Key.availableOnly} && on == off[Key.availableOnly := Bool(true)]
  {
    var off := SearchParams(categoryId, search, active.(availableOnly := false), pageNo);
    var on := SearchParams(categoryId, search, active.(availableOnly := true), pageNo);
    assert off.Keys == (on - {Key.availableOnly}).Keys;
  }

  /** The query parameters `fetchBooks` sends to `/api/v1/Books`. */
  function BrowseParams(page: int, search: string, categoryId: Option<int>): Params {
    map[Key.page := Int(page), Key.pageSize := Int(BrowsePageSize), Key.search := Str(search),
        Key.categoryId := OptionalInt(categoryId)]
  }

  /** A browse request carries page, the screen's page size of 1, the search
      text and the category, and nothing else. */
  lemma BrowseParamsShape(page: int, search: string, categoryId: Option<int>)
    ensures var r := BrowseParams(page, search, categoryId);
      && r.Keys == {Key.page, Key.pageSize, Key.search, Key.categoryId}
      && r[Key.page] == Int(page) && r[Key.pageSize] == Int(BrowsePageSize) && r[Key.search] == Str(search)
  {
  }

  /** The query parameters `handleSearch` sends. */
  function QuickSearchParams(query: string): Params {
    map[Key.title := Str(query), Key.author := Str(query), Key.isbn := Str(query)]
  }

  /** The quick search sends the query as title, author and ISBN, and nothing else. */
  lemma QuickSearchParamsShape(query: string)
    ensures var r := QuickSearchParams(query);
      r.Keys == {Key.title, Key.author, Key.isbn} && forall k :: k in r ==> r[k] == Str(query)
  {
  }

  /** `data.some(book => book.isAvailable === true)` */
  predicate AnyAvailable(books: seq<Book>) {
    exists i | 0 <= i < |books| :: books[i].isAvailable
  }

  /** The wishlist button's set update: exactly `id` changes membership. */
  function Toggled(s: set<int>, id: int): (r: set<int>)
    ensures id in r <==> id !in s
    ensures forall other :: other != id ==> (other in r <==> other in s)
  {
    if id in s then s - {id} else s + {id}
  }

  /** Toggling the same id twice restores the set. */
  lemma ToggleTwice(s: set<int>, id: int)
    ensures Toggled(Toggled(s, id), id) == s
  {
  }

  class CategoryScreen {
    const categoryId: Option<int>
    var books: seq<Book>
    var loading: bool
    var loadingMore: bool
    var searchQuery: string
    var currentPage: int
    var totalPages: int
    var totalCount: int
    var wishlist: set<int>
    var refreshing: bool
    var showAvailableFilter: bool
    var filters: Filters

    /** Pages are numbered from 1 and the screen never goes below. */
    ghost predicate Valid()
      reads this
    {
      currentPage >= 1
    }

    /** The state on mount, bound to the route's `categoryId` (possibly absent). */
    constructor (categoryId: Option<int>)
      ensures Valid()
      ensures this.categoryId == categoryId
      ensures books == [] && searchQuery == "" && wishlist == {}
      ensures currentPage == 1 && totalPages == 1 && totalCount == 0
      ensures !loading && !loadingMore && !refreshing && !showAvailableFilter
      ensures filters == InitialFilters
    {
      this.categoryId := categoryId;
      books := [];
      loading := false;
      loadingMore := false;
      searchQuery := "";
      currentPage := 1;
      totalPages := 1;
      totalCount := 0;
      wishlist := {};
      refreshing := false;
      showAvailableFilter := false;
      filters := InitialFilters;
    }

    /** `fetchFilteredBooks(pageNo, search, activeFilters)`: page 1 replaces
        the list, any other page appends to it (without removing duplicates);
        `totalPages` takes the server's value or 1. A failure changes neither. */
    method FetchFilteredBooks(pageNo: int, search: string, active: Filters, outcome: Outcome<BooksPage>)
      returns (request: Params)
      modifies this
      ensures request == SearchParams(categoryId, search, active, pageNo)
      ensures outcome.Succeeded? && pageNo == 1 ==> books == PageBooks(outcome.response)
      ensures outcome.Succeeded? && pageNo != 1 ==> books == old(books) + PageBooks(outcome.response)
      ensures outcome.Succeeded? ==> totalPages == OrOne(outcome.response.totalPages)
      ensures outcome.Failed? ==> books == old(books) && totalPages == old(totalPages)
      ensures totalCount == old(totalCount) && currentPage == old(currentPage)
      ensures filters == old(filters) && searchQuery == old(searchQuery) && wishlist == old(wishlist)
      ensures showAvailableFilter == old(showAvailableFilter)
      ensures !loading && !loadingMore && !refreshing
    {
      request := SearchParams(categoryId, search, active, pageNo);
      match outcome {
        case Succeeded(response) =>
          var newBooks := PageBooks(response);
          if pageNo == 1 {
            books := newBooks;
          } else {
            books := books + newBooks;
          }
          totalPages := OrOne(response.totalPages);
        case Failed =>
      }
      loading := false;
      loadingMore := false;
      refreshing := false;
    }

    /** `fetchBooks(page, search, showLoader, append)` against `/api/v1/Books`.
        On success the page replaces or extends the list and the counts are
        taken from the response; on failure a replacing fetch empties the list
        and resets the counts, while an appending fetch leaves them alone. */
    method FetchBooks(page: int, search: string, showLoader: bool, append: bool, outcome: Outcome<BooksPage>)
      returns (request: Params)
      modifies this
      ensures request == BrowseParams(page, search, categoryId)
      ensures outcome.Succeeded? ==>
        && books == (if append then old(books) + PageBooks(outcome.response) else PageBooks(outcome.response))
        && totalCount == OrZero(outcome.response.totalCount)
        && totalPages == OrOne(outcome.response.totalPages)
        && showAvailableFilter == AnyAvailable(PageBooks(outcome.response))
      ensures outcome.Failed? && !append ==> books == [] && totalCount == 0 && totalPages == 1
      ensures outcome.Failed? && append ==>
        books == old(books) && totalCount == old(totalCount) && totalPages == old(totalPages)
      ensures outcome.Failed? ==> showAvailableFilter == old(showAvailableFilter)
      ensures currentPage == old(currentPage) && filters == old(filters)
      ensures searchQuery == old(searchQuery) && wishlist == old(wishlist)
      ensures !loading && !loadingMore && !refreshing
    {
      if showLoader && !append {
        loading := true;
      }
      if append {
        loadingMore := true;
      }
      request := BrowseParams(page, search, categoryId);
      match outcome {
        case Succeeded(response) =>
          var data := PageBooks(response);
          if append {
            books := books + data;
          } else {
            books := data;
          }
          totalCount := OrZero(response.totalCount);
          totalPages := OrOne(response.totalPages);
          showAvailableFilter := AnyAvailable(data);
        case Failed =>
          if !append {
            books := [];
            totalCount := 0;
            totalPages := 1;
          }
      }
      loading := false;
      loadingMore := false;
      refreshing := false;
    }

    /** The search box's `setSearchQuery` and the effect on `[token, searchQuery]`:
        typing a new text stores it and, when a token is present, reloads page 1
        through `fetchBooks`. Setting the text it already holds is no state
        change for React, so the effect does not run again. */
    method ChangeSearchQuery(text: string, hasToken: bool, outcome: Outcome<BooksPage>)
      returns (request: Option<Params>)
      requires Valid()
      modifies this
      ensures Valid()
      ensures text == old(searchQuery) ==> request.None? && unchanged(this)
      ensures searchQuery == text && filters == old(filters) && wishlist == old(wishlist)
      ensures text != old(searchQuery) && !hasToken ==>
        && request.None? && books == old(books) && currentPage == old(currentPage)
        && totalCount == old(totalCount) && totalPages == old(totalPages)
        && showAvailableFilter == old(showAvailableFilter)
        && loading == old(loading) && loadingMore == old(loadingMore) && refreshing == old(refreshing)
      ensures text != old(searchQuery) && hasToken ==>
        && currentPage == 1 && request == Some(BrowseParams(1, text, categoryId))
        && !loading && !loadingMore && !refreshing
      ensures text != old(searchQuery) && hasToken && outcome.Succeeded? ==>
        && books == PageBooks(outcome.response)
        && totalCount == OrZero(outcome.response.totalCount)
        && totalPages == OrOne(outcome.response.totalPages)
        && showAvailableFilter == AnyAvailable(PageBooks(outcome.response))
      ensures text != old(searchQuery) && hasToken && outcome.Failed? ==>
        && books == [] && totalCount == 0 && totalPages == 1
        && showAvailableFilter == old(showAvailableFilter)
    {
      if text == searchQuery {
        request := None;
      } else {
        searchQuery := text;
        if hasToken {
          currentPage := 1;
          var sent := FetchBooks(1, text, true, false, outcome);
          request := Some(sent);
        } else {
          request := None;
        }
      }
    }

    /** `handleSearch`: nothing at all happens for a blank query; otherwise
        page 1 of the server search replaces the list, and a failure empties
        the list and resets the counts. */
    method HandleSearch(outcome: Outcome<BooksPage>) returns (request: Option<Params>)
      requires Valid()
      modifies this
      ensures Valid()
      ensures if IsBlank(old(searchQuery)) then request.None? && unchanged(this) else
        && request == Some(QuickSearchParams(searchQuery))
        && currentPage == 1 && !loading && !refreshing
        && (outcome.Succeeded? ==>
              && books == PageBooks(outcome.response)
              && totalCount == OrZero(outcome.response.totalCount)
              && totalPages == OrOne(outcome.response.totalPages))
        && (outcome.Failed? ==> books == [] && totalCount == 0 && totalPages == 1)
      ensures searchQuery == old(searchQuery) && filters == old(filters) && wishlist == old(wishlist)
      ensures loadingMore == old(loadingMore) && showAvailableFilter == old(showAvailableFilter)
    {
      if IsBlank(searchQuery) {
        request := None;
      } else {
        loading := true;
        currentPage := 1;
        request := Some(QuickSearchParams(searchQuery));
        if outcome.Succeeded? {
          books := PageBooks(outcome.response);
          totalCount := OrZero(outcome.response.totalCount);
          totalPages := OrOne(outcome.response.totalPages);
        } else {
          books := [];
          totalCount := 0;
          totalPages := 1;
        }
        loading := false;
        refreshing := false;
      }
    }

    /** `handleFilterToggle(key)`: flips one filter, goes back to page 1 and
        fetches page 1 with the new filters, which replaces the list. */
    method HandleFilterToggle(key: FilterKey, outcome: Outcome<BooksPage>) returns (request: Params)
      requires Valid()
      modifies this
      ensures Valid()
      ensures filters == Flipped(old(filters), key)
      ensures currentPage == 1
      ensures request == SearchParams(categoryId, searchQuery, filters, 1)
      ensures outcome.Succeeded? ==> books == PageBooks(outcome.response)
      ensures outcome.Succeeded? ==> totalPages == OrOne(outcome.response.totalPages)
      ensures outcome.Failed? ==> books == old(books) && totalPages == old(totalPages)
      ensures totalCount == old(totalCount) && showAvailableFilter == old(showAvailableFilter)
      ensures !loading && !loadingMore && !refreshing
      ensures searchQuery == old(searchQuery) && wishlist == old(wishlist)
    {
      filters := Flipped(filters, key);
      currentPage := 1;
      request := FetchFilteredBooks(1, searchQuery, filters, outcome);
    }

    /** `handleSortToggle`: flips the sort order, pins the sort key to
        "title", goes back to page 1 and fetches it. */
    method HandleSortToggle(outcome: Outcome<BooksPage>) returns (request: Params)
      requires Valid()
      modifies this
      ensures Valid()
      ensures filters == SortToggled(old(filters))
      ensures currentPage == 1
      ensures request == SearchParams(categoryId, searchQuery, filters, 1)
      ensures outcome.Succeeded? ==> books == PageBooks(outcome.response)
      ensures outcome.Succeeded? ==> totalPages == OrOne(outcome.response.totalPages)
      ensures outcome.Failed? ==> books == old(books) && totalPages == old(totalPages)
      ensures totalCount == old(totalCount) && showAvailableFilter == old(showAvailableFilter)
      ensures !loading && !loadingMore && !refreshing
      ensures searchQuery == old(searchQuery) && wishlist == old(wishlist)
    {
      filters := SortToggled(filters);
      currentPage := 1;
      request := FetchFilteredBooks(1, searchQuery, filters, outcome);
    }

    /** `handleRefresh`: page 1 with the current filters and query. */
    method HandleRefresh(outcome: Outcome<BooksPage>) returns (request: Params)
      requires Valid()
      modifies this
      ensures Valid()
      ensures currentPage == 1
      ensures request == SearchParams(categoryId, searchQuery, filters, 1)
      ensures outcome.Succeeded? ==> books == PageBooks(outcome.response)
      ensures outcome.Succeeded? ==> totalPages == OrOne(outcome.response.totalPages)
      ensures outcome.Failed? ==> books == old(books) && totalPages == old(totalPages)
      ensures totalCount == old(totalCount) && showAvailableFilter == old(showAvailableFilter)
      ensures !loading && !loadingMore && !refreshing
      ensures filters == old(filters) && searchQuery == old(searchQuery) && wishlist == old(wishlist)
    {
      refreshing := true;
      currentPage := 1;
      request := FetchFilteredBooks(1, searchQuery, filters, outcome);
    }

    /** The list's pull-to-refresh: page 1 through `fetchBooks`, replacing the list. */
    method PullToRefresh(outcome: Outcome<BooksPage>) returns (request: Params)
      requires Valid()
      modifies this
      ensures Valid()
      ensures currentPage == 1
      ensures request == BrowseParams(1, searchQuery, categoryId)
      ensures outcome.Succeeded? ==>
        && books == PageBooks(outcome.response)
        && totalCount == OrZero(outcome.response.totalCount)
        && totalPages == OrOne(outcome.response.totalPages)
        && showAvailableFilter == AnyAvailable(PageBooks(outcome.response))
      ensures outcome.Failed? ==>
        books == [] && totalCount == 0 && totalPages == 1 && showAvailableFilter == old(showAvailableFilter)
      ensures !loading && !loadingMore && !refreshing
      ensures filters == old(filters) && searchQuery == old(searchQuery) && wishlist == old(wishlist)
    {
      currentPage := 1;
      request := FetchBooks(1, searchQuery, true, false, outcome);
    }

    /** The list's end-reached trigger: it fetches only when no page load is
        in flight and a further page is known to exist, and then moves to the
        next page, which is appended. The page is not moved back on failure. */
    method OnEndReached(outcome: Outcome<BooksPage>) returns (request: Option<Params>)
      requires Valid()
      modifies this
      ensures Valid()
      ensures old(loadingMore) || old(currentPage) >= old(totalPages) ==> request.None? && unchanged(this)
      ensures !old(loadingMore) && old(currentPage) < old(totalPages) ==>
        && currentPage == old(currentPage) + 1
        && request == Some(SearchParams(categoryId, searchQuery, filters, currentPage))
      ensures request.Some? ==> currentPage <= old(totalPages)
      ensures request.Some? && outcome.Succeeded? ==>
        && books == old(books) + PageBooks(outcome.response)
        && totalPages == OrOne(outcome.response.totalPages)
      ensures request.Some? && outcome.Failed? ==> books == old(books) && totalPages == old(totalPages)
      ensures request.Some? ==>
        && totalCount == old(totalCount) && showAvailableFilter == old(showAvailableFilter)
        && !loading && !loadingMore && !refreshing
      ensures filters == old(filters) && searchQuery == old(searchQuery) && wishlist == old(wishlist)
    {
      if !loadingMore && currentPage < totalPages {
        currentPage := currentPage + 1;
        var sent := FetchFilteredBooks(currentPage, searchQuery, filters, outcome);
        request := Some(sent);
      } else {
        request := None;
      }
    }

    /** `toggleWishlist(bookId)` */
    method ToggleWishlist(bookId: int)
      modifies this`wishlist
      ensures wishlist == Toggled(old(wishlist), bookId)
    {
      wishlist := Toggled(wishlist, bookId);
    }
  }
}
