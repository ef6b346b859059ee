/**
 * `PaginationInfo`: the derived page count and navigation flags of a listing response.
 */
module Pagination {

  datatype PaginationInfo = PaginationInfo(
    page: int,
    perPage: int,
    totalItems: int,
    totalPages: int,
    hasNextPage: bool,
    hasPrevPage: bool)

  /**
   * The page count: `ceil(totalItems / perPage)` for a positive page size, else 0.
   * Dafny's `/` floors for a positive divisor, so the ceiling is `-((-t) / p)`; this is the
   * exact value that the floating-point `ceil` gives for every count below 2^53.
   */
  function TotalPages(totalItems: int, perPage: int): int {
    if perPage > 0 then -((-totalItems) / perPage) else 0
  }

  /** `PaginationInfo.init(page:perPage:totalItems:)` */
  function MakePaginationInfo(page: int, perPage: int, totalItems: int): (info: PaginationInfo)
    ensures info.page == page && info.perPage == perPage && info.totalItems == totalItems
    ensures info.hasNextPage <==> page < info.totalPages
    ensures info.hasPrevPage <==> page > 1
  {
    var totalPages := TotalPages(totalItems, perPage);
    PaginationInfo(page, perPage, totalItems, totalPages, page < totalPages, page > 1)
  }

  /**
   * For a positive page size, the page count is the ceiling of the quotient: the fewest
   * pages of `perPage` items that hold every item. Otherwise it is 0.
   */
  lemma TotalPagesIsCeiling(totalItems: int, perPage: int)
    ensures perPage > 0 ==>
      (TotalPages(totalItems, perPage) - 1) * perPage < totalItems <= TotalPages(totalItems, perPage) * perPage
    ensures perPage <= 0 ==> TotalPages(totalItems, perPage) == 0
  {
    if perPage > 0 {
      var q := (-totalItems) / perPage;
      var r := (-totalItems) % perPage;
      assert -totalItems == q * perPage + r && 0 <= r < perPage;
      assert TotalPages(totalItems, perPage) == -q;
    }
  }

  /**
   * An empty listing has no pages, so no page from 0 on has a next page (validated pages
   * start at 1; a negative page would compare below 0 and report one).
   */
  lemma EmptyListingHasNoNextPage(page: int, perPage: int)
    ensures MakePaginationInfo(page, perPage, 0).totalPages == 0
    ensures page >= 0 ==> !MakePaginationInfo(page, perPage, 0).hasNextPage
  {
  }

  /** The example of the response documentation: 150 items, 20 per page, page 1. */
  lemma DocumentedExample()
    ensures MakePaginationInfo(1, 20, 150) == PaginationInfo(1, 20, 150, 8, true, false)
  {
  }

  /** 95 items at 50 per page: two pages; page 2 is the last, page 3 lies beyond it. */
  lemma NinetyFiveItemsExample()
    ensures MakePaginationInfo(1, 50, 95) == PaginationInfo(1, 50, 95, 2, true, false)
    ensures MakePaginationInfo(2, 50, 95) == PaginationInfo(2, 50, 95, 2, false, true)
    ensures MakePaginationInfo(3, 50, 95) == PaginationInfo(3, 50, 95, 2, false, true)
  {
  }
}
