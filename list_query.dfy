/**
 * `PhotoListQuery`: the raw, optional query parameters of a listing request and their
 * validated values.
 */
module ListQuery {
  import opened Wrappers
  import opened PhotoModel

  datatype PhotoListQuery = PhotoListQuery(
    page: Option<int>,
    perPage: Option<int>,
    sortBy: Option<string>,
    order: Option<string>,
    year: Option<int>,
    month: Option<int>)

  const DefaultPage: int := 1
  const DefaultPerPage: int := 50
  const MaxPerPage: int := 100

  function Max(a: int, b: int): int { if a >= b then a else b }
  function Min(a: int, b: int): int { if a <= b then a else b }

  /** `max(1, page ?? 1)` */
  function ValidatedPage(q: PhotoListQuery): (p: int)
    ensures p >= 1
    ensures q.page.Some? && q.page.value >= 1 ==> p == q.page.value
    ensures q.page.None? || q.page.value < 1 ==> p == DefaultPage
  {
    Max(1, q.page.GetOr(DefaultPage))
  }

  /** `min(100, max(1, perPage ?? 50))` */
  function ValidatedPerPage(q: PhotoListQuery): (n: int)
    ensures 1 <= n <= MaxPerPage
    ensures q.perPage.None? ==> n == DefaultPerPage
    ensures q.perPage.Some? && 1 <= q.perPage.value <= MaxPerPage ==> n == q.perPage.value
    ensures q.perPage.Some? && q.perPage.value < 1 ==> n == 1
    ensures q.perPage.Some? && q.perPage.value > MaxPerPage ==> n == MaxPerPage
  {
    Min(MaxPerPage, Max(1, q.perPage.GetOr(DefaultPerPage)))
  }

  /** `PhotoSortBy(rawValue:)` */
  function ParseSortBy(raw: string): Option<SortBy> {
    if raw == "createdAt" then Some(CreatedAt)
    else if raw == "filename" then Some(Filename)
    else if raw == "size" then Some(Size)
    else None
  }

  /** `SortOrder(rawValue:)` */
  function ParseSortOrder(raw: string): Option<SortOrder> {
    if raw == "asc" then Some(Asc)
    else if raw == "desc" then Some(Desc)
    else None
  }

  function SortByRaw(s: SortBy): string {
    match s
    case CreatedAt => "createdAt"
    case Filename => "filename"
    case Size => "size"
  }

  function SortOrderRaw(o: SortOrder): string {
    match o
    case Asc => "asc"
    case Desc => "desc"
  }

  /** Missing or unrecognised sort keys fall back to the creation date. */
  function ValidatedSortBy(q: PhotoListQuery): (s: SortBy)
    ensures q.sortBy.Some? && q.sortBy.value in {"createdAt", "filename", "size"} ==>
      SortByRaw(s) == q.sortBy.value
    ensures q.sortBy.None? || q.sortBy.value !in {"createdAt", "filename", "size"} ==>
      s == CreatedAt
  {
    match q.sortBy
    case None => CreatedAt
    case Some(raw) => ParseSortBy(raw).GetOr(CreatedAt)
  }

  /** Missing or unrecognised orders fall back to descending. */
  function ValidatedOrder(q: PhotoListQuery): (o: SortOrder)
    ensures q.order.Some? && q.order.value in {"asc", "desc"} ==> SortOrderRaw(o) == q.order.value
    ensures q.order.None? || q.order.value !in {"asc", "desc"} ==> o == Desc
  {
    match q.order
    case None => Desc
    case Some(raw) => ParseSortOrder(raw).GetOr(Desc)
  }

  /** The query that carries the validated values of `q` in place of its raw ones. */
  function Normalised(q: PhotoListQuery): PhotoListQuery {
    q.(page := Some(ValidatedPage(q)), perPage := Some(ValidatedPerPage(q)),
       sortBy := Some(SortByRaw(ValidatedSortBy(q))), order := Some(SortOrderRaw(ValidatedOrder(q))))
  }

  /** Validation is idempotent: feeding validated values back in changes nothing. */
  lemma ValidationIdempotent(q: PhotoListQuery)
    ensures ValidatedPage(Normalised(q)) == ValidatedPage(q)
    ensures ValidatedPerPage(Normalised(q)) == ValidatedPerPage(q)
    ensures ValidatedSortBy(Normalised(q)) == ValidatedSortBy(q)
    ensures ValidatedOrder(Normalised(q)) == ValidatedOrder(q)
  {
  }
}
