/**
 * `GalleryViewModel`: the home app's photo grid. It holds the photos loaded so far, fetches
 * page 1 on refresh and appends the next page when the last photo scrolls into view.
 *
 * The server is a parameter `api(page, perPage)`, the reply to one listing request. A server
 * that answers every page from one fixed listing `all` is `Consistent(api, all)`; under it the
 * grid keeps the invariant `Paged(all)`: the photos shown are exactly the first
 * `currentPage` pages of `all`, and `hasMorePages` says whether a further page exists.
 */
module Gallery {
  import opened Wrappers
  import opened PhotoModel
  import opened Pagination
  import opened RecordLists

  /** `PaginatedResponse<Photo>` as the client decodes it. */
  datatype PageResponse = PageResponse(data: seq<Photo>, pagination: PaginationInfo)

  type PhotoApi = (int, int) -> Result<PageResponse, string>

  const PerPage: int := 50

  /** The server answers each page request it does not fail with that page of `all`. */
  ghost predicate Consistent(api: PhotoApi, all: seq<Photo>) {
    forall page: int :: page >= 1 && api(page, PerPage).Ok? ==>
      api(page, PerPage).value == PageResponse(PageOf(all, page, PerPage), MakePaginationInfo(page, PerPage, |all|))
  }

  class GalleryViewModel {
    var photos: seq<Photo>
    var isLoading: bool
    var isLoadingMore: bool
    var error: Option<string>
    var totalCount: int
    var currentPage: int
    var hasMorePages: bool

    /** The photos are the first `currentPage` pages of `all`, and a next page is announced exactly when it exists. */
    ghost predicate Paged(all: seq<Photo>)
      reads this
    {
      currentPage >= 1 &&
      photos == FirstPages(all, PerPage, currentPage) &&
      (hasMorePages <==> currentPage < TotalPages(|all|, PerPage))
    }

    constructor ()
      ensures photos == [] && !isLoading && !isLoadingMore && error == None
      ensures totalCount == 0 && currentPage == 1 && hasMorePages
    {
      photos := [];
      isLoading := false;
      isLoadingMore := false;
      error := None;
      totalCount := 0;
      currentPage := 1;
      hasMorePages := true;
    }

    /**
     * `refresh` as written: the page counter is reset to 1 before the request, so a failed
     * request leaves the old photos on screen with the counter of a single page.
     */
    method Refresh(api: PhotoApi)
      modifies this
      ensures !isLoading && isLoadingMore == old(isLoadingMore) && currentPage == 1
      ensures api(1, PerPage).Ok? ==>
        photos == api(1, PerPage).value.data && error == None &&
        totalCount == api(1, PerPage).value.pagination.totalItems &&
        hasMorePages == api(1, PerPage).value.pagination.hasNextPage
      ensures api(1, PerPage).Err? ==>
        photos == old(photos) && error == Some(api(1, PerPage).error) &&
        totalCount == old(totalCount) && hasMorePages == old(hasMorePages)
    {
      isLoading := true;
      error := None;
      currentPage := 1;
      var response := api(1, PerPage);
      if response.Ok? {
        photos := response.value.data;
        totalCount := response.value.pagination.totalItems;
        hasMorePages := response.value.pagination.hasNextPage;
        currentPage := 1;
      } else {
        error := Some(response.error);
      }
      isLoading := false;
    }

    /**
     * `refresh` with the counter reset only together with the photos: a failed request leaves
     * the grid as it was, apart from the error, so the invariant survives either outcome.
     */
    method RefreshKeepingPage(api: PhotoApi, ghost all: seq<Photo>)
      modifies this
      ensures !isLoading && isLoadingMore == old(isLoadingMore)
      ensures api(1, PerPage).Ok? ==>
        photos == api(1, PerPage).value.data && error == None && currentPage == 1 &&
        totalCount == api(1, PerPage).value.pagination.totalItems &&
        hasMorePages == api(1, PerPage).value.pagination.hasNextPage
      ensures api(1, PerPage).Err? ==>
        photos == old(photos) && error == Some(api(1, PerPage).error) && currentPage == old(currentPage) &&
        totalCount == old(totalCount) && hasMorePages == old(hasMorePages)
      ensures Consistent(api, all) && api(1, PerPage).Ok? ==> Paged(all) && totalCount == |all|
      ensures api(1, PerPage).Err? && old(Paged(all)) ==> Paged(all)
    {
      isLoading := true;
      error := None;
      var response := api(1, PerPage);
      if response.Ok? {
        photos := response.value.data;
        totalCount := response.value.pagination.totalItems;
        hasMorePages := response.value.pagination.hasNextPage;
        currentPage := 1;
        assert FirstPages(all, PerPage, 1) == PageOf(all, 1, PerPage);
      } else {
        error := Some(response.error);
      }
      isLoading := false;
    }

    /** `loadInitial`: refreshes only an empty grid. */
    method LoadInitial(api: PhotoApi)
      modifies this
      ensures old(photos) != [] ==>
        photos == old(photos) && isLoading == old(isLoading) && isLoadingMore == old(isLoadingMore) &&
        error == old(error) && totalCount == old(totalCount) && currentPage == old(currentPage) &&
        hasMorePages == old(hasMorePages)
      ensures old(photos) == [] ==> !isLoading && isLoadingMore == old(isLoadingMore) && currentPage == 1
      ensures old(photos) == [] && api(1, PerPage).Ok? ==>
        photos == api(1, PerPage).value.data && error == None &&
        totalCount == api(1, PerPage).value.pagination.totalItems &&
        hasMorePages == api(1, PerPage).value.pagination.hasNextPage
      ensures old(photos) == [] && api(1, PerPage).Err? ==>
        photos == [] && error == Some(api(1, PerPage).error) &&
        totalCount == old(totalCount) && hasMorePages == old(hasMorePages)
    {
      if photos != [] {
        return;
      }
      Refresh(api);
    }

    /**
     * `loadMore`: requests the page after the current one; on success its photos are appended
     * and the counter advances, on failure nothing but the loading flag changes. The next page
     * extends a paged grid by exactly one page.
     */
    method LoadMore(api: PhotoApi, ghost all: seq<Photo>)
      modifies this`photos, this`hasMorePages, this`currentPage, this`isLoadingMore
      ensures !isLoadingMore
      ensures var reply := api(old(currentPage) + 1, PerPage);
        (reply.Ok? ==> photos == old(photos) + reply.value.data && currentPage == old(currentPage) + 1 &&
                       hasMorePages == reply.value.pagination.hasNextPage) &&
        (reply.Err? ==> photos == old(photos) && currentPage == old(currentPage) && hasMorePages == old(hasMorePages))
      ensures Consistent(api, all) && old(Paged(all)) ==> Paged(all)
    {
      isLoadingMore := true;
      var nextPage := currentPage + 1;
      var response := api(nextPage, PerPage);
      if response.Ok? {
        photos := photos + response.value.data;
        hasMorePages := response.value.pagination.hasNextPage;
        currentPage := nextPage;
      }
      isLoadingMore := false;
    }

    /** `loadMoreIfNeeded`: loads the next page when the photo shown is the last one and more pages exist. */
    method LoadMoreIfNeeded(current: Photo, api: PhotoApi, ghost all: seq<Photo>) returns (fired: bool)
      modifies this`photos, this`hasMorePages, this`currentPage, this`isLoadingMore
      ensures fired <==> old(photos) != [] && old(photos)[|old(photos)| - 1].id == current.id &&
                         old(hasMorePages) && !old(isLoadingMore)
      ensures !fired ==> photos == old(photos) && currentPage == old(currentPage) && hasMorePages == old(hasMorePages) &&
                         isLoadingMore == old(isLoadingMore)
      ensures fired ==> !isLoadingMore
      ensures fired ==>
        var reply := api(old(currentPage) + 1, PerPage);
        (reply.Ok? ==> photos == old(photos) + reply.value.data && currentPage == old(currentPage) + 1 &&
                       hasMorePages == reply.value.pagination.hasNextPage) &&
        (reply.Err? ==> photos == old(photos) && currentPage == old(currentPage) && hasMorePages == old(hasMorePages))
      ensures Consistent(api, all) && old(Paged(all)) ==> Paged(all)
    {
      if photos == [] || photos[|photos| - 1].id != current.id || !hasMorePages || isLoadingMore {
        return false;
      }
      LoadMore(api, all);
      fired := true;
    }
  }

  /**
   * The failed refresh as written: with two full pages of a listing of over 100 photos on
   * screen, a refresh whose request fails and then a scroll to the end fetch page 2 again and
   * append it, so the grid shows 150 photos, the 51st and the 101st being the same photo.
   */
  method FailedRefreshDuplicatesPage(vm: GalleryViewModel, all: seq<Photo>, offline: PhotoApi, api: PhotoApi)
    requires vm.Paged(all) && vm.currentPage == 2 && |all| > 100 && !vm.isLoadingMore
    requires offline(1, PerPage).Err? && Consistent(api, all) && api(2, PerPage).Ok?
    modifies vm
    ensures |vm.photos| == 150 && vm.photos[50] == vm.photos[100] && vm.currentPage == 2
    ensures !vm.Paged(all)
  {
    PagesTileList(all, PerPage, 2);
    TotalPagesIsCeiling(|all|, PerPage);
    vm.Refresh(offline);
    var fired := vm.LoadMoreIfNeeded(vm.photos[|vm.photos| - 1], api, all);
    assert vm.photos == all[..100] + all[50..100];
  }

  /** The same sequence with the corrected refresh: the grid still shows the first three pages, once each. */
  method FailedRefreshKeepsPages(vm: GalleryViewModel, all: seq<Photo>, offline: PhotoApi, api: PhotoApi)
    requires vm.Paged(all) && vm.currentPage == 2 && |all| > 100 && !vm.isLoadingMore
    requires offline(1, PerPage).Err? && Consistent(api, all) && api(3, PerPage).Ok?
    modifies vm
    ensures vm.Paged(all) && vm.currentPage == 3
    ensures vm.photos == all[..Min(150, |all|)]
  {
    TotalPagesIsCeiling(|all|, PerPage);
    vm.RefreshKeepingPage(offline, all);
    var fired := vm.LoadMoreIfNeeded(vm.photos[|vm.photos| - 1], api, all);
    PagesTileList(all, PerPage, 3);
  }
}
