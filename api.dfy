/**
 * The HTTP handlers of internal/api/server.go, one pure function per route.
 *
 * Every collaborator the handlers call through an interface (the job store, the scheduler, the
 * subscription service) is a parameter: the store as the function from `(limit, offset)` to the
 * rows it returns, the scheduler and the service as the result of their one call. A handler's
 * reply is its status code, the paging headers when it writes them, and the JSON body.
 */
module Api {
  import opened Wrappers
  import opened Strs
  import opened Model
  import S = Storage

  const DefaultLimit: int := 20
  const MaxLimit: int := 100
  const DefaultPage: int := 1

  const StatusOK: int := 200
  const StatusCreated: int := 201
  const StatusBadRequest: int := 400
  const StatusMethodNotAllowed: int := 405
  const StatusInternalServerError: int := 500
  const StatusServiceUnavailable: int := 503

  /** The `X-Page`, `X-Limit`, `X-Has-More` and `X-Total` headers of a job listing. */
  datatype PageHeaders = PageHeaders(page: int, limit: int, hasMore: bool, total: int)

  datatype Body =
    | NoBody
    | ErrorBody(error: string)
    | JobsBody(jobs: seq<Job>)
    | CreatedBody(created: int)
    | StatusBody(status: string)

  datatype Reply = Reply(status: int, headers: Option<PageHeaders>, body: Body)

  /** A reply, and whether the handler called its collaborator (the scheduler or the subscription service). */
  datatype Handled = Handled(reply: Reply, called: bool)

  /** The `limit` and `offset` arguments of a store listing. */
  datatype Window = Window(limit: int, offset: int)

  /** The `limit` and `page` query parameters, `""` when absent. */
  datatype PageQuery = PageQuery(limit: string, page: string)

  /** The JSON payload of `POST /api/subscriptions`. */
  datatype SubscriptionRequest = SubscriptionRequest(email: string, channel: string, tags: seq<string>)

  // ---------------------------------------------------------------- paging parameters

  /** `limit`: a positive integer, capped at 100; anything else means 20. */
  function ParseLimit(l: string): (limit: int)
    ensures 1 <= limit <= MaxLimit
    ensures Atoi(l).None? ==> limit == DefaultLimit
  {
    if l != "" && Atoi(l).Some? && Atoi(l).value > 0 then
      (if Atoi(l).value > MaxLimit then MaxLimit else Atoi(l).value)
    else DefaultLimit
  }

  /** `page`: a positive integer; anything else means page 1. */
  function ParsePage(p: string): (page: int)
    ensures 1 <= page <= MaxInt64
    ensures Atoi(p).None? ==> page == DefaultPage
  {
    if p != "" && Atoi(p).Some? && Atoi(p).value > 0 then Atoi(p).value else DefaultPage
  }

  /** A decimal limit reads back as itself when it lies in 1..100, as the cap above it, and as the default otherwise. */
  lemma ParseLimitItoa(n: int)
    requires MinInt64 <= n <= MaxInt64
    ensures 1 <= n <= MaxLimit ==> ParseLimit(Itoa(n)) == n
    ensures n > MaxLimit ==> ParseLimit(Itoa(n)) == MaxLimit
    ensures n <= 0 ==> ParseLimit(Itoa(n)) == DefaultLimit
  {
    AtoiItoa(n);
  }

  /** A decimal page number reads back as itself when positive, and as page 1 otherwise. */
  lemma ParsePageItoa(n: int)
    requires MinInt64 <= n <= MaxInt64
    ensures n > 0 ==> ParsePage(Itoa(n)) == n
    ensures n <= 0 ==> ParsePage(Itoa(n)) == DefaultPage
  {
    AtoiItoa(n);
  }

  // ---------------------------------------------------------------- the offset

  /** The offset as the handler computes it, `(page - 1) * limit` in 64-bit arithmetic. */
  function OffsetAsWritten(page: int, limit: int): int
  {
    Wrap64((page - 1) * limit)
  }

  /** The offset the handler means: the rows of the `page - 1` earlier pages. */
  function Offset(page: int, limit: int): (offset: int)
    requires page >= 1 && limit >= 1
    ensures offset >= 0
    ensures page > 1 ==> offset >= limit
  {
    (page - 1) * limit
  }

  /** Each page starts exactly one page after the previous one. */
  lemma OffsetAdvances(page: int, limit: int)
    requires page >= 1 && limit >= 1
    ensures Offset(page + 1, limit) == Offset(page, limit) + limit
  {
  }

  /**
   * Page 2^62 + 1 of 20 rows is a valid page number (it is below 2^63, see `ParsePageItoa`), but
   * its 64-bit offset wraps around to 0: the request is answered with the first page again.
   */
  lemma OffsetWrapsToFirstPage(page: int)
    requires page == 0x4000_0000_0000_0001
    ensures OffsetAsWritten(page, 20) == OffsetAsWritten(1, 20) == 0
    ensures Offset(page, 20) != Offset(1, 20)
  {
    assert OffsetAsWritten(0x4000_0000_0000_0001, 20) == 0;
  }

  /** Below the wrap-around the written offset is the intended one. */
  lemma OffsetAsWrittenAgrees(page: int, limit: int)
    requires page >= 1 && limit >= 1 && (page - 1) * limit <= MaxInt64
    ensures OffsetAsWritten(page, limit) == Offset(page, limit)
  {
  }

  // ---------------------------------------------------------------- GET /api/jobs

  /** The store arguments of a listing: one row more than the limit, so that a further page can be detected. */
  function WindowOf(q: PageQuery): (w: Window)
  {
    var limit := ParseLimit(q.limit);
    Window(limit + 1, Offset(ParsePage(q.page), limit))
  }

  /** The rows the store returns for a query's window. */
  function Rows(q: PageQuery, list: (int, int) -> Result<seq<Job>, string>): Result<seq<Job>, string>
  {
    list(WindowOf(q).limit, WindowOf(q).offset)
  }

  /** The window asks for 2 to 101 rows, from a whole number of pages into the listing. */
  lemma WindowSpec(q: PageQuery)
    ensures 2 <= WindowOf(q).limit <= MaxLimit + 1
    ensures WindowOf(q).offset == (ParsePage(q.page) - 1) * (WindowOf(q).limit - 1) >= 0
  {
  }

  /**
   * `/api/jobs`: list one row more than the limit, count the matching rows, and answer with at
   * most `limit` of the rows; a 500 with the error text when either store call fails.
   */
  function ListJobs(q: PageQuery, list: (int, int) -> Result<seq<Job>, string>, count: Result<int, string>): (r: Reply)
    ensures r.status == StatusOK || r.status == StatusInternalServerError
  {
    ListPage(ParsePage(q.page), ParseLimit(q.limit), list, count)
  }

  /** The listing once `page` and `limit` are read from the query. */
  function ListPage(page: int, limit: int, list: (int, int) -> Result<seq<Job>, string>, count: Result<int, string>): (r: Reply)
    requires page >= 1 && limit >= 1
    ensures r.status == StatusOK || r.status == StatusInternalServerError
  {
    match list(limit + 1, Offset(page, limit))
    case Err(e) => Reply(StatusInternalServerError, None, ErrorBody(e))
    case Ok(jobs) =>
      match count
      case Err(e) => Reply(StatusInternalServerError, None, ErrorBody(e))
      case Ok(total) =>
        var hasMore := |jobs| > limit;
        Reply(StatusOK, Some(PageHeaders(page, limit, hasMore, total)), JobsBody(if hasMore then jobs[..limit] else jobs))
  }

  /**
   * The reply of `/api/jobs` in terms of the store's answers: a 500 exactly when a store call
   * failed; otherwise the page and limit read from the query, the first `limit` rows the store
   * returned, `X-Has-More` exactly when it returned more than that, and the count as `X-Total`.
   */
  lemma ListJobsSpec(q: PageQuery, list: (int, int) -> Result<seq<Job>, string>, count: Result<int, string>)
    ensures var r, rows := ListJobs(q, list, count), Rows(q, list);
      && (r.status == StatusInternalServerError <==> rows.Err? || count.Err?)
      && (r.status == StatusInternalServerError ==> r.headers.None? && r.body.ErrorBody?)
      && (r.status == StatusOK ==>
        && r.body.JobsBody? && r.headers.Some?
        && r.headers.value.page == ParsePage(q.page) && r.headers.value.limit == ParseLimit(q.limit)
        && |r.body.jobs| <= r.headers.value.limit && |r.body.jobs| <= |rows.value|
        && r.body.jobs == rows.value[..|r.body.jobs|]
        && (r.headers.value.hasMore <==> |rows.value| > r.headers.value.limit)
        && r.headers.value.total == count.value)
  {
  }

  /** A store that pages through the listing `all` and counts it. */
  ghost predicate PagesThrough(all: seq<Job>, list: (int, int) -> Result<seq<Job>, string>, count: Result<int, string>)
  {
    && (forall limit, offset :: list(limit, offset) == Ok(S.Page(all, offset, limit)))
    && count == Ok(|all|)
  }

  /**
   * Over a store paging through `all`, the reply is the page of `all` the page number names, and
   * `X-Has-More` is true exactly when rows follow that page.
   */
  lemma ListPageOf(page: int, limit: int, all: seq<Job>, list: (int, int) -> Result<seq<Job>, string>, count: Result<int, string>)
    requires page >= 1 && limit >= 1
    requires PagesThrough(all, list, count)
    ensures var r, offset := ListPage(page, limit, list, count), Offset(page, limit);
      && r.status == StatusOK
      && r.body.jobs == S.Page(all, offset, limit)
      && (r.headers.value.hasMore <==> |all| > offset + limit)
      && r.headers.value.total == |all|
  {
    var offset := Offset(page, limit);
    var rows := S.Page(all, offset, limit + 1);
    assert list(limit + 1, offset) == Ok(rows);
    var r := ListPage(page, limit, list, count);
    if offset < |all| {
      var n := if offset + limit <= |all| then offset + limit else |all|;
      assert S.Page(all, offset, limit) == all[offset..n];
      if |rows| > limit {
        assert rows == all[offset..offset + |rows|];
        assert r.body.jobs == rows[..limit];
      }
    }
  }

  /** The query's page of `all`, as `ListPageOf` states it for the page and limit read from the query. */
  lemma ListJobsPage(q: PageQuery, all: seq<Job>, list: (int, int) -> Result<seq<Job>, string>, count: Result<int, string>)
    requires PagesThrough(all, list, count)
    ensures var r := ListJobs(q, list, count);
      var limit := ParseLimit(q.limit);
      var offset := Offset(ParsePage(q.page), limit);
      && r.status == StatusOK
      && r.body.jobs == S.Page(all, offset, limit)
      && (r.headers.value.hasMore <==> |all| > offset + limit)
      && r.headers.value.total == |all|
  {
    ListPageOf(ParsePage(q.page), ParseLimit(q.limit), all, list, count);
  }

  /** Page `p` followed by page `p + 1` of the same limit is the listing's window of two pages. */
  lemma ConsecutivePagesTile(p: int, limit: int, all: seq<Job>, list: (int, int) -> Result<seq<Job>, string>, count: Result<int, string>)
    requires p >= 1 && limit >= 1
    requires PagesThrough(all, list, count)
    ensures ListPage(p, limit, list, count).body.jobs + ListPage(p + 1, limit, list, count).body.jobs
      == S.Page(all, Offset(p, limit), 2 * limit)
  {
    var o := Offset(p, limit);
    OffsetAdvances(p, limit);
    assert ListPage(p, limit, list, count).body.jobs == S.Page(all, o, limit) by {
      ListPageOf(p, limit, all, list, count);
    }
    assert ListPage(p + 1, limit, list, count).body.jobs == S.Page(all, o + limit, limit) by {
      ListPageOf(p + 1, limit, all, list, count);
    }
    S.PagesTile(all, o, limit, limit);
  }

  // ---------------------------------------------------------------- POST /api/refresh

  /** `/api/refresh`: only a POST runs the scheduler; its error is a 500, its count of new jobs a 200. */
  function Refresh(httpMethod: string, runOnce: Result<int, string>): (h: Handled)
    ensures h.called <==> httpMethod == "POST"
    ensures h.reply.headers.None?
    ensures h.reply.status == StatusMethodNotAllowed <==> httpMethod != "POST"
    ensures h.reply.status == StatusOK <==> httpMethod == "POST" && runOnce.Ok?
    ensures h.reply.status == StatusOK ==> h.reply.body == CreatedBody(runOnce.value)
    ensures h.reply.status == StatusInternalServerError ==> h.reply.body == ErrorBody(runOnce.error)
  {
    if httpMethod != "POST" then Handled(Reply(StatusMethodNotAllowed, None, NoBody), false)
    else
      match runOnce
      case Err(e) => Handled(Reply(StatusInternalServerError, None, ErrorBody(e)), true)
      case Ok(created) => Handled(Reply(StatusOK, None, CreatedBody(created)), true)
  }

  // ---------------------------------------------------------------- POST /api/subscriptions

  /**
   * `/api/subscriptions`: a POST with a decodable payload reaches the service when one is
   * configured; the service's error is a 400 carrying its text, success a 201.
   * `payload` is the decoded body, `None` when it is not valid JSON for a request.
   */
  function Subscribe(httpMethod: string, service: Option<SubscriptionRequest -> Option<string>>, payload: Option<SubscriptionRequest>): (h: Handled)
    ensures h.called <==> httpMethod == "POST" && service.Some? && payload.Some?
    ensures h.reply.headers.None?
    ensures h.reply.status == StatusMethodNotAllowed <==> httpMethod != "POST"
    ensures h.reply.status == StatusServiceUnavailable <==> httpMethod == "POST" && service.None?
    ensures h.reply.status == StatusCreated <==> h.called && service.value(payload.value).None?
    ensures h.reply.status == StatusBadRequest ==>
      && h.reply.body.ErrorBody?
      && (h.reply.body.error == "invalid payload" || (h.called && h.reply.body == ErrorBody(service.value(payload.value).value)))
  {
    if httpMethod != "POST" then Handled(Reply(StatusMethodNotAllowed, None, NoBody), false)
    else if service.None? then Handled(Reply(StatusServiceUnavailable, None, ErrorBody("subscription disabled")), false)
    else if payload.None? then Handled(Reply(StatusBadRequest, None, ErrorBody("invalid payload")), false)
    else
      match service.value(payload.value)
      case Some(e) => Handled(Reply(StatusBadRequest, None, ErrorBody(e)), true)
      case None => Handled(Reply(StatusCreated, None, StatusBody("ok")), true)
  }

  /** Every reply of the subscription route is one of its five status codes, and only a call to the service can create. */
  lemma SubscribeStatuses(httpMethod: string, service: Option<SubscriptionRequest -> Option<string>>, payload: Option<SubscriptionRequest>)
    ensures var s := Subscribe(httpMethod, service, payload).reply.status;
      s in {StatusCreated, StatusBadRequest, StatusMethodNotAllowed, StatusServiceUnavailable}
    ensures Subscribe(httpMethod, service, payload).reply.status == StatusCreated ==> Subscribe(httpMethod, service, payload).called
  {
  }
}
