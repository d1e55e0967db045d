/**
 * The query object of the list and export endpoints: its field initialisers,
 * which the validation pipe's transform applies to every absent field, and
 * its constraint decorators.
 */
module BookQueryDto {
  import opened Wrappers

  const DEFAULT_PAGE: int := 0
  const DEFAULT_LIMIT: int := 10
  const DEFAULT_SORT_BY: string := "createdAt"
  const DEFAULT_SORT_ORDER: string := "DESC"

  /** Numbers are already converted; `None` is an absent (undefined) field. */
  datatype FindAllQuery = FindAllQuery(
    page: Option<int>,
    limit: Option<int>,
    search: Option<string>,
    genre: Option<string>,
    author: Option<string>,
    editorial: Option<string>,
    availability: Option<int>,
    sortBy: Option<string>,
    sortOrder: Option<string>)

  /** The query with no parameter given. */
  const EmptyQuery := FindAllQuery(None, None, None, None, None, None, None, None, None)

  /** The instance the transform builds: each absent field with an initialiser takes it. */
  function WithDefaults(q: FindAllQuery): (r: FindAllQuery)
    ensures r.page.Some? && r.limit.Some? && r.sortBy.Some? && r.sortOrder.Some?
    ensures q.page.Some? ==> r.page == q.page
    ensures q.limit.Some? ==> r.limit == q.limit
    ensures q.sortBy.Some? ==> r.sortBy == q.sortBy
    ensures q.sortOrder.Some? ==> r.sortOrder == q.sortOrder
    ensures q.page.None? ==> r.page == Some(DEFAULT_PAGE)
    ensures q.limit.None? ==> r.limit == Some(DEFAULT_LIMIT)
    ensures q.sortBy.None? ==> r.sortBy == Some(DEFAULT_SORT_BY)
    ensures q.sortOrder.None? ==> r.sortOrder == Some(DEFAULT_SORT_ORDER)
    ensures r.(page := q.page, limit := q.limit, sortBy := q.sortBy, sortOrder := q.sortOrder) == q
  {
    q.(page := Some(q.page.GetOr(DEFAULT_PAGE)),
       limit := Some(q.limit.GetOr(DEFAULT_LIMIT)),
       sortBy := Some(q.sortBy.GetOr(DEFAULT_SORT_BY)),
       sortOrder := Some(q.sortOrder.GetOr(DEFAULT_SORT_ORDER)))
  }

  /**
   * The decorators: `page >= 0`, `limit >= 1`, `availability` in {0, 1} and
   * `sortOrder` exactly "ASC" or "DESC". The string filters carry no constraint.
   */
  predicate QueryValid(q: FindAllQuery) {
    && (q.page.Some? ==> q.page.value >= 0)
    && (q.limit.Some? ==> q.limit.value >= 1)
    && (q.availability.Some? ==> q.availability.value in {0, 1})
    && (q.sortOrder.Some? ==> q.sortOrder.value in {"ASC", "DESC"})
  }

  /** The defaults themselves pass the constraints, so applying them neither makes nor breaks validity. */
  lemma DefaultsKeepValidity(q: FindAllQuery)
    ensures QueryValid(WithDefaults(q)) <==> QueryValid(q)
  {
  }

  /** Applying the defaults to a query that already has them changes nothing. */
  lemma WithDefaultsIdempotent(q: FindAllQuery)
    ensures WithDefaults(WithDefaults(q)) == WithDefaults(q)
  {
  }

  /** The lower-case orders the documentation lists are rejected. */
  lemma LowerCaseOrderRejected(q: FindAllQuery)
    requires q.sortOrder == Some("asc") || q.sortOrder == Some("desc")
    ensures !QueryValid(q)
  {
  }

  /** With no parameters the query is page 0 of 10, newest first. */
  lemma EmptyQueryDefaults()
    ensures WithDefaults(EmptyQuery) ==
      FindAllQuery(Some(0), Some(10), None, None, None, None, None, Some("createdAt"), Some("DESC"))
    ensures QueryValid(WithDefaults(EmptyQuery))
  {
  }
}
