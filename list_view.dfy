/** What the three list pages share: the list response, the pagination they keep, how a
    response is folded into it, and who may edit or delete a row. */
module ListView {
  import opened Common
  import opened Http

  /** `response.pagination`: the server's page number and its total count
      (`totalCourses`, `totalInstructors` or `totalStudents`, depending on the list). */
  datatype PageInfo = PageInfo(currentPage: Option<int>, total: Option<int>)

  /** The body of a list reply; `None` is an absent (or null) property. */
  datatype ListResponse = ListResponse(data: Option<seq<Record>>, pagination: Option<PageInfo>)

  /** The `pagination` state of the courses and instructors pages. */
  datatype Pagination = Pagination(current: int, pageSize: int, total: int)

  const InitialPagination := Pagination(1, 10, 0)

  /** Truthiness of an optional number: present and not zero. */
  predicate NonZero(n: Option<int>)
  {
    n.Some? && n.value != 0
  }

  /** `response.data || []`. */
  function Rows(r: ListResponse): seq<Record>
  {
    if r.data.Some? then r.data.value else []
  }

  /** `response.pagination?.currentPage`. */
  function ReportedPage(r: ListResponse): Option<int>
  {
    if r.pagination.Some? then r.pagination.value.currentPage else None
  }

  /** `response.pagination?.totalX`. */
  function ReportedTotal(r: ListResponse): Option<int>
  {
    if r.pagination.Some? then r.pagination.value.total else None
  }

  /** The rows and pagination a courses or instructors page shows. */
  datatype Listing = Listing(rows: seq<Record>, pagination: Pagination)

  /** What a fetch of `page` with `limit` rows leaves on screen: a reply replaces the rows and
      the pagination, a thrown error leaves both as they were. */
  function AfterFetch(before: Listing, reply: Reply<ListResponse>, page: int, limit: int): (after: Listing)
    ensures reply.Thrown? ==> after == before
    ensures reply.Ok? ==> after.rows == Rows(reply.body) && after.pagination.pageSize == limit
    ensures reply.Ok? ==> (after.pagination.total == 0 ==> after.rows == [])
  {
    match reply
    case Ok(r) => Listing(Rows(r), Reconcile(r, page, limit))
    case Thrown(_) => before
  }

  /** The notification a fetch shows: none on success, the page's error text on failure. */
  function FetchNotices<T>(reply: Reply<T>, failure: string): (ns: seq<Notice>)
    ensures ns == [] <==> reply.Ok?
    ensures reply.Thrown? ==> ns == [Failure(failure)]
  {
    if reply.Ok? then [] else [Failure(failure)]
  }

  /** The pagination set after a list reply for a request of `page` with `limit` rows:
      the server's page when it gives a non-zero one, else the requested page; the requested
      limit; the server's total when non-zero, else the number of rows received. */
  function Reconcile(r: ListResponse, page: int, limit: int): (p: Pagination)
    ensures p.pageSize == limit
    ensures p.current == page || (Some(p.current) == ReportedPage(r) && p.current != 0)
    ensures p.total == |Rows(r)| || (Some(p.total) == ReportedTotal(r) && p.total != 0)
    ensures p.total == 0 ==> Rows(r) == []
  {
    Pagination(
      if NonZero(ReportedPage(r)) then ReportedPage(r).value else page,
      limit,
      if NonZero(ReportedTotal(r)) then ReportedTotal(r).value else |Rows(r)|)
  }

  /** A reply without `pagination` shows the requested page and counts the rows received;
      a reply that reports both numbers is believed. A reported `0` counts as missing. */
  lemma ReconcileFallbacks(r: ListResponse, page: int, limit: int)
    ensures r.pagination.None? ==> Reconcile(r, page, limit) == Pagination(page, limit, |Rows(r)|)
    ensures r.pagination.Some? && NonZero(r.pagination.value.currentPage) && NonZero(r.pagination.value.total) ==>
      Reconcile(r, page, limit) == Pagination(r.pagination.value.currentPage.value, limit, r.pagination.value.total.value)
    ensures r.pagination == Some(PageInfo(Some(0), Some(0))) ==> Reconcile(r, page, limit) == Pagination(page, limit, |Rows(r)|)
    ensures r.data.None? && !NonZero(ReportedTotal(r)) ==> Reconcile(r, page, limit).total == 0
  {
  }

  /** The condition under which a row shows its edit and delete actions: signed in, a stored
      principal, and the row's `instructor_id` strictly equal to the principal's. Two missing
      ids are equal (`undefined === undefined`). */
  predicate CanManage(authenticated: bool, principal: Option<Record>, record: Record)
    ensures CanManage(authenticated, principal, record) ==> authenticated && principal.Some?
  {
    authenticated && principal.Some? && Get(record, "instructor_id") == Get(principal.value, "instructor_id")
  }

  /** The condition under which a row shows "View Only", written as the page writes it. */
  predicate ViewOnly(authenticated: bool, principal: Option<Record>, record: Record)
    ensures !authenticated || principal.None? ==> ViewOnly(authenticated, principal, record)
  {
    !authenticated || principal.None? || Get(record, "instructor_id") != Get(principal.value, "instructor_id")
  }

  /** Every row shows exactly one of the two: its actions or "View Only". A signed-out viewer
      manages nothing, and a principal manages a row that carries its own id. */
  lemma ActionsOrViewOnly(authenticated: bool, principal: Option<Record>, record: Record)
    ensures ViewOnly(authenticated, principal, record) <==> !CanManage(authenticated, principal, record)
    ensures !authenticated ==> ViewOnly(authenticated, principal, record)
    ensures principal.Some? && "instructor_id" in principal.value ==>
      (CanManage(authenticated, principal, record) <==>
        authenticated && Get(record, "instructor_id") == Some(principal.value["instructor_id"]))
  {
  }
}
