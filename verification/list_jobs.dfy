/** The user's job list (admin-vanilla/temp-cors-handler/list-jobs-lambda.py):
    `GET /v1/jobs` answers the caller's own jobs, newest first, one page at
    a time. The table scan is an input: the items it returns across all of
    its pages, in scan order, or `None` when it raises. */
module ListJobs {

  import opened Wrappers
  import opened Text
  import opened Jobs
  import opened Auth
  import opened Listing
  import Submission

  const DefaultPageSize: nat := 10
  const MaxPageSize: int := 100
  const UnknownStatus: string := "unknown"

  /** The invocation as the handler reads it: the method, the `Origin`
      header, the `Authorization` header with the decoder's result, and the
      `page` and `pageSize` query parameters. */
  datatype ListRequest = ListRequest(httpMethod: Option<string>, origin: Option<string>,
                                     authorization: Option<string>, decoded: Option<TokenClaims>,
                                     page: Option<string>, pageSize: Option<string>)

  /** One job as the list shows it. */
  datatype Entry = Entry(jobId: string, status: string, createdAt: string, updatedAt: string,
                         prompt: string, duration_seconds: Option<int>, resolution: Option<string>,
                         outputUrl: Option<string>, audioUrl: Option<string>, tier: Option<string>,
                         error_message: Option<string>)

  datatype JobList = JobList(jobs: seq<Entry>, total: nat, page: int, pageSize: int, totalPages: nat)

  datatype Body = NoBody | ErrorBody(error: string) | ListBody(list: JobList)

  datatype Reply = Reply(code: int, body: Body)

  /** A job as the list shows it: missing status and timestamps replaced by
      defaults, the prompt cut to its preview, the rest copied. */
  function FormatEntry(j: Job): (e: Entry)
    ensures e.jobId == j.jobId
    ensures e.status == if j.status.Some? then j.status.value else UnknownStatus
    ensures e.createdAt == if j.createdAt.Some? then j.createdAt.value else DefaultTimestamp
    ensures e.updatedAt == if j.updatedAt.Some? then j.updatedAt.value else DefaultTimestamp
    ensures e.prompt == Preview(j.prompt.GetOr("")) && |e.prompt| <= PreviewLength + |Ellipsis|
    ensures e.outputUrl == j.outputUrl && e.audioUrl == j.audioUrl && e.error_message == j.error_message
    ensures e.duration_seconds == j.duration_seconds && e.resolution == j.resolution && e.tier == j.tier
  {
    Entry(j.jobId, j.status.GetOr(UnknownStatus), j.createdAt.GetOr(DefaultTimestamp),
          j.updatedAt.GetOr(DefaultTimestamp), Preview(j.prompt.GetOr("")), j.duration_seconds,
          j.resolution, j.outputUrl, j.audioUrl, j.tier, j.error_message)
  }

  /** The scanned items whose `user_id` is the caller, in scan order: what
      the scan's filter expression keeps. */
  function OwnJobs(items: seq<Job>, userId: string): (r: seq<Job>)
    ensures |r| <= |items|
    ensures forall j :: j in r <==> j in items && j.user_id == Some(userId)
    decreases |items|
  {
    if |items| == 0 then []
    else
      var n := |items| - 1;
      var rest := OwnJobs(items[..n], userId);
      assert items == items[..n] + [items[n]];
      if items[n].user_id == Some(userId) then rest + [items[n]] else rest
  }

  /** The page of the caller's jobs and the counts around it; a scan that
      raises gives an empty list with no pages. */
  function UserJobs(items: Option<seq<Job>>, userId: string, page: int, size: int): (l: JobList)
    requires page >= 1 && 1 <= size <= MaxPageSize
    ensures l.page == page && l.pageSize == size && |l.jobs| <= size
    ensures items.None? ==> l.jobs == [] && l.total == 0 && l.totalPages == 0
    ensures items.Some? ==> l.total == |OwnJobs(items.value, userId)|
    ensures l.total <= l.totalPages * size && (l.totalPages > 0 ==> (l.totalPages - 1) * size < l.total)
    ensures (page - 1) * size >= l.total ==> l.jobs == []
    ensures items.Some? ==> ShowsOwnJobs(l.jobs, items.value, userId)
  {
    match items
    case None => JobList([], 0, page, size, 0)
    case Some(all) =>
      var own := OwnJobs(all, userId);
      EntriesAreOwn(all, userId, page, size);
      JobList(FormatAll(PageOf(SortNewestFirst(own), page, size)), |own|, page, size, TotalPages(|own|, size))
  }

  /** The page lists the caller's jobs newest first: the entries of the
      sorted own jobs from the page's first index on, in order, as many as
      the page size allows. */
  lemma UserJobsPage(all: seq<Job>, userId: string, page: int, size: int)
    requires page >= 1 && 1 <= size <= MaxPageSize
    ensures var l := UserJobs(Some(all), userId, page, size);
            var sorted := SortNewestFirst(OwnJobs(all, userId));
            var start := (page - 1) * size;
            && NewestFirst(sorted) && |sorted| == l.total && 0 <= start
            && (start < l.total ==>
                  && |l.jobs| == (if page * size <= l.total then size else l.total - start)
                  && start + |l.jobs| <= |sorted|
                  && l.jobs == FormatAll(sorted[start..start + |l.jobs|]))
  {
    PageStartNonNegative(page, size);
    var sorted := SortNewestFirst(OwnJobs(all, userId));
    var l := UserJobs(Some(all), userId, page, size);
    assert l.jobs == FormatAll(PageOf(sorted, page, size));
    if (page - 1) * size < |sorted| {
      FormattedPage(sorted, page, size);
    }
  }

  /** The formatted page is the formatted slice of the list it pages. */
  lemma FormattedPage(sorted: seq<Job>, page: int, size: int)
    requires page >= 1 && size >= 1 && (page - 1) * size < |sorted|
    ensures var p := FormatAll(PageOf(sorted, page, size));
            var start := (page - 1) * size;
            && |p| == (if page * size <= |sorted| then size else |sorted| - start)
            && start + |p| <= |sorted|
            && p == FormatAll(sorted[start..start + |p|])
  {
    PageIsSlice(sorted, page, size);
  }

  /** Every line formats one of the caller's scanned jobs. */
  predicate ShowsOwnJobs(es: seq<Entry>, all: seq<Job>, userId: string) {
    forall k :: 0 <= k < |es| ==> exists j :: j in all && j.user_id == Some(userId) && es[k] == FormatEntry(j)
  }

  lemma EntriesAreOwn(all: seq<Job>, userId: string, page: int, size: int)
    requires page >= 1 && size >= 1
    ensures ShowsOwnJobs(FormatAll(PageOf(SortNewestFirst(OwnJobs(all, userId)), page, size)), all, userId)
  {
    var own := OwnJobs(all, userId);
    var sorted := SortNewestFirst(own);
    var shown := PageOf(sorted, page, size);
    PageDrawsFrom(sorted, page, size);
    var es := FormatAll(shown);
    forall k | 0 <= k < |es| ensures exists j :: j in all && j.user_id == Some(userId) && es[k] == FormatEntry(j) {
      var j := shown[k];
      assert j in shown;
      assert j in multiset(sorted);
      assert j in own;
    }
  }

  /** Every entry of a page is an entry of the list it was cut from. */
  lemma PageDrawsFrom(s: seq<Job>, page: int, size: int)
    requires page >= 1 && size >= 1
    ensures forall e :: e in PageOf(s, page, size) ==> e in s
  {
    var shown := PageOf(s, page, size);
    forall e | e in shown ensures e in s {
      var k :| 0 <= k < |shown| && shown[k] == e;
      assert s[(page - 1) * size + k] == e;
    }
  }

  function FormatAll(js: seq<Job>): (es: seq<Entry>)
    ensures |es| == |js|
    ensures forall k :: 0 <= k < |js| ==> es[k] == FormatEntry(js[k])
  {
    seq(|js|, k requires 0 <= k < |js| => FormatEntry(js[k]))
  }

  /** The code of the handler's `except`, chosen by words in the exception
      text. */
  function ErrorCode(msg: string): (code: int)
    ensures code in {400, 401, 500}
    ensures code == 401 <==> Contains(msg, "Unauthorized")
    ensures code == 400 <==> !Contains(msg, "Unauthorized") && Contains(msg, "Invalid")
  {
    if Contains(msg, "Unauthorized") then 401 else if Contains(msg, "Invalid") then 400 else 500
  }

  /** `str(x)` of the method: `None` when the event has none. */
  function ShowMethod(m: Option<string>): string {
    if m.Some? then m.value else "None"
  }

  /** The text of the error the method check raises. */
  function MethodError(m: Option<string>): string {
    "Method " + ShowMethod(m) + " not allowed"
  }

  predicate Allowed(origin: Option<string>) {
    origin.Some? && origin.value in Submission.AllowedOrigins
  }

  /** The handler. A preflight answers 204 for an allowed origin and 403
      otherwise. Any method but GET is refused with the code its error text
      selects. A GET without a caller is 401; a page number or size that
      `int()` cannot read fails with the code its error text selects;
      otherwise the answer is 200 with the clamped page of the caller's own
      jobs. */
  function HandleList(req: ListRequest, items: Option<seq<Job>>): (r: Reply)
    ensures req.httpMethod == Some("OPTIONS") ==> r == Reply(if Allowed(req.origin) then 204 else 403, NoBody)
    ensures req.httpMethod != Some("OPTIONS") && req.httpMethod != Some("GET") ==>
              r == Reply(ErrorCode(MethodError(req.httpMethod)), ErrorBody(MethodError(req.httpMethod)))
    ensures req.httpMethod == Some("GET") && UserIdFromToken(req.authorization, req.decoded, true).None? ==>
              r == Reply(401, ErrorBody("Unauthorized"))
    ensures r.code == 200 <==>
              && req.httpMethod == Some("GET")
              && UserIdFromToken(req.authorization, req.decoded, true).Some?
              && ReadInt(req.page, 1).Success? && ReadInt(req.pageSize, DefaultPageSize).Success?
    ensures r.code == 200 ==>
              && r.body.ListBody?
              && r.body.list.page == ClampPage(ReadInt(req.page, 1).value)
              && r.body.list.pageSize == ClampPageSize(ReadInt(req.pageSize, DefaultPageSize).value, MaxPageSize, DefaultPageSize)
              && r.body.list == UserJobs(items, UserIdFromToken(req.authorization, req.decoded, true).value,
                                         r.body.list.page, r.body.list.pageSize)
  {
    if req.httpMethod == Some("OPTIONS") then Reply(if Allowed(req.origin) then 204 else 403, NoBody)
    else if req.httpMethod != Some("GET") then
      Reply(ErrorCode(MethodError(req.httpMethod)), ErrorBody(MethodError(req.httpMethod)))
    else match UserIdFromToken(req.authorization, req.decoded, true)
      case None => Reply(401, ErrorBody("Unauthorized"))
      case Some(userId) =>
        match ReadInt(req.page, 1)
        case Failure(msg) => Reply(ErrorCode(msg), ErrorBody(msg))
        case Success(page) =>
          match ReadInt(req.pageSize, DefaultPageSize)
          case Failure(msg) => Reply(ErrorCode(msg), ErrorBody(msg))
          case Success(size) =>
            var p := ClampPage(page);
            var s := ClampPageSize(size, MaxPageSize, DefaultPageSize);
            Reply(200, ListBody(UserJobs(items, userId, p, s)))
  }

  /** A refused method answers 401 when its name holds `Unauthorized`,
      400 when it holds `Invalid`, and 500 otherwise: the fixed words
      around the name select nothing. An event without a method gets 500. */
  lemma MethodRefusal(req: ListRequest)
    requires req.httpMethod != Some("OPTIONS") && req.httpMethod != Some("GET")
    ensures var m := ShowMethod(req.httpMethod);
            HandleList(req, None).code ==
              if Contains(m, "Unauthorized") then 401 else if Contains(m, "Invalid") then 400 else 500
    ensures req.httpMethod.None? ==> HandleList(req, None).code == 500
  {
    var m := ShowMethod(req.httpMethod);
    ContainsFramed("Method ", m, " not allowed", "Unauthorized", ' ');
    ContainsFramed("Method ", m, " not allowed", "Invalid", ' ');
    if req.httpMethod.None? {
      MissingFirstChar("None", "Unauthorized");
      MissingFirstChar("None", "Invalid");
    }
  }

  /** A page parameter `int()` cannot read answers by the same words: a
      plain non-number such as `abc` is a 500, not a 400, because Python's
      message says `invalid` in lower case. */
  lemma UnreadablePage(req: ListRequest, items: Option<seq<Job>>)
    requires req.httpMethod == Some("GET") && UserIdFromToken(req.authorization, req.decoded, true).Some?
    requires req.page.Some? && ParseInt(req.page.value).None?
    ensures var t := req.page.value;
            HandleList(req, items) ==
              Reply(if Contains(t, "Unauthorized") then 401 else if Contains(t, "Invalid") then 400 else 500,
                    ErrorBody(IntError(t)))
  {
    IntErrorCode(req.page.value);
  }

  lemma IntErrorCode(t: string)
    ensures ErrorCode(IntError(t)) ==
              if Contains(t, "Unauthorized") then 401 else if Contains(t, "Invalid") then 400 else 500
  {
    var prefix := "invalid literal for int() with base 10: '";
    assert 'U' !in prefix && 'I' !in prefix;
    ContainsFramed(prefix, t, "'", "Unauthorized", '\'');
    ContainsFramed(prefix, t, "'", "Invalid", '\'');
  }

  /** Paging through the list reaches every one of the caller's jobs: each
      appears, formatted, on some page within the page count. */
  lemma EveryOwnJobListed(req: ListRequest, items: seq<Job>, j: Job)
    requires req.httpMethod == Some("GET")
    requires UserIdFromToken(req.authorization, req.decoded, true).Some?
    requires ReadInt(req.pageSize, DefaultPageSize).Success?
    requires j in items && j.user_id == Some(UserIdFromToken(req.authorization, req.decoded, true).value)
    ensures exists p: nat :: p >= 1 &&
              var r := HandleList(req.(page := Some(NatToString(p))), Some(items));
              && r.code == 200 && p <= r.body.list.totalPages && FormatEntry(j) in r.body.list.jobs
  {
    var userId := UserIdFromToken(req.authorization, req.decoded, true).value;
    var size := ClampPageSize(ReadInt(req.pageSize, DefaultPageSize).value, MaxPageSize, DefaultPageSize);
    var p := PageOfOwnJob(items, userId, size, j);
    ParseNatToString(p);
    var req' := req.(page := Some(NatToString(p)));
    assert ReadInt(req'.page, 1) == Success(p);
    var r := HandleList(req', Some(items));
    assert r.code == 200;
    assert r.body.list == UserJobs(Some(items), userId, p, size);
  }

  /** The page on which one of the caller's jobs is shown. */
  lemma PageOfOwnJob(items: seq<Job>, userId: string, size: int, j: Job) returns (p: nat)
    requires 1 <= size <= MaxPageSize && j in items && j.user_id == Some(userId)
    ensures p >= 1
    ensures var l := UserJobs(Some(items), userId, p, size);
            p <= l.totalPages && FormatEntry(j) in l.jobs
  {
    var own := OwnJobs(items, userId);
    var sorted := SortNewestFirst(own);
    assert j in multiset(own);
    var i :| 0 <= i < |sorted| && sorted[i] == j;
    PageCovers(sorted, size, i);
    p := i / size + 1;
    var l := UserJobs(Some(items), userId, p, size);
    assert l.jobs == FormatAll(PageOf(sorted, p, size));
    assert l.jobs[i % size] == FormatEntry(j);
  }

  /** Each scanned item stands for one stored job, once: the scan result
      lists exactly the table's items, each stored under its own id. */
  predicate ScanOf(store: Store, items: seq<Job>) {
    && (forall id :: id in store ==> store[id].jobId == id)
    && (forall i, k :: 0 <= i < k < |items| ==> items[i].jobId != items[k].jobId)
    && (forall j :: j in items ==> j.jobId in store && store[j.jobId] == j)
    && (forall id :: id in store ==> store[id] in items)
  }

  /** The ids of the caller's jobs in the table. */
  function OwnedIds(store: Store, userId: string): set<string> {
    set id | id in store && store[id].user_id == Some(userId)
  }

  /** The ids of the caller's scanned items. */
  function OwnIds(items: seq<Job>, userId: string): set<string> {
    set j | j in items && j.user_id == Some(userId) :: j.jobId
  }

  /** The list's total counts exactly the caller's jobs in the table. */
  lemma TotalCountsOwnJobs(store: Store, items: seq<Job>, userId: string)
    requires ScanOf(store, items)
    ensures |OwnJobs(items, userId)| == |OwnedIds(store, userId)|
  {
    OwnIdsCount(items, userId);
    SameOwnIds(store, items, userId);
  }

  lemma SameOwnIds(store: Store, items: seq<Job>, userId: string)
    requires ScanOf(store, items)
    ensures OwnIds(items, userId) == OwnedIds(store, userId)
  {
    var ids := OwnIds(items, userId);
    var owned := OwnedIds(store, userId);
    forall id | id in owned ensures id in ids {
      var j := store[id];
      assert j in items;
      assert store[j.jobId] == j;
      assert j.jobId == id;
    }
    forall id | id in ids ensures id in owned {
      var j :| j in items && j.user_id == Some(userId) && j.jobId == id;
      assert store[id] == j;
    }
  }

  /** With distinct ids, the caller's items are as many as their ids. */
  lemma {:induction false} OwnIdsCount(items: seq<Job>, userId: string)
    requires forall i, k :: 0 <= i < k < |items| ==> items[i].jobId != items[k].jobId
    ensures |OwnJobs(items, userId)| == |OwnIds(items, userId)|
    decreases |items|
  {
    if |items| == 0 {
      assert OwnIds(items, userId) == {};
    } else {
      var n := |items| - 1;
      var init, x := items[..n], items[n];
      assert items == init + [x];
      OwnIdsCount(init, userId);
      OwnIdsSnoc(init, x, userId);
      LastIdFresh(items, userId);
    }
  }

  /** With distinct ids, the last item's id is not among those before it. */
  lemma LastIdFresh(items: seq<Job>, userId: string)
    requires |items| > 0
    requires forall i, k :: 0 <= i < k < |items| ==> items[i].jobId != items[k].jobId
    ensures items[|items| - 1].jobId !in OwnIds(items[..|items| - 1], userId)
  {
    var n := |items| - 1;
    forall j | j in items[..n] ensures j.jobId != items[n].jobId {
      var i :| 0 <= i < n && items[..n][i] == j;
    }
  }

  /** One more scanned item adds its id when the caller owns it. */
  lemma OwnIdsSnoc(init: seq<Job>, x: Job, userId: string)
    ensures OwnIds(init + [x], userId) ==
            OwnIds(init, userId) + (if x.user_id == Some(userId) then {x.jobId} else {})
    ensures OwnJobs(init + [x], userId) ==
            OwnJobs(init, userId) + (if x.user_id == Some(userId) then [x] else [])
  {
    assert (init + [x])[..|init|] == init;
  }
}
