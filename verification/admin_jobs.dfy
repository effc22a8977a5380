/** The first admin job list (admin-vanilla/temp-cors-handler/admin-jobs-lambda.py):
    `GET /v1/admin/jobs` answers every job in the table, newest first, one
    page at a time, with counts by status, by user and by resolution and
    the figures behind the average duration. Any authenticated caller may
    ask; there is no admin check. The scan is an input: every item of the
    table in scan order, or `None` when it raises. */
module AdminJobs {

  import opened Wrappers
  import opened Text
  import opened Jobs
  import opened Auth
  import opened Listing
  import opened Counting

  const DefaultPageSize: nat := 100
  const MaxPageSize: int := 1000
  const Unknown: string := "UNKNOWN"

  /** This handler's origins: the admin site and local development. */
  const AdminOrigins: set<string> := {"https://admin.deepfoundai.com", "http://localhost:5173"}

  datatype AdminRequest = AdminRequest(httpMethod: Option<string>, origin: Option<string>,
                                       authorization: Option<string>, decoded: Option<TokenClaims>,
                                       page: Option<string>, pageSize: Option<string>)

  /** The statistics over all scanned jobs. `avgDuration` is
      `durationSum / durationCount`, or 0 when the count is 0. */
  datatype Stats = Stats(total: nat, byStatus: map<string, nat>, byUser: map<string, nat>,
                         byResolution: map<string, nat>, durationSum: int, durationCount: nat)

  datatype AdminList = AdminList(jobs: seq<Job>, total: nat, page: int, pageSize: int, totalPages: nat,
                                 stats: Stats, rawCount: nat)

  datatype Body = NoBody | ErrorBody(error: string) | ListBody(list: AdminList)

  datatype Reply = Reply(code: int, body: Body)

  function StatusKey(j: Job): string { j.status.GetOr(Unknown) }
  function UserKey(j: Job): string { j.user_id.GetOr(Unknown) }
  function ResolutionKey(j: Job): string { j.resolution.GetOr(Unknown) }

  /** The key of each job, in order. */
  function KeysOf(jobs: seq<Job>, key: Job -> string): (ks: seq<string>)
    ensures |ks| == |jobs|
    decreases |jobs|
  {
    if |jobs| == 0 then []
    else KeysOf(jobs[..|jobs| - 1], key) + [key(jobs[|jobs| - 1])]
  }

  /** Key `i` is the key of job `i`. */
  lemma {:induction false} KeysOfIndex(jobs: seq<Job>, key: Job -> string)
    ensures forall i :: 0 <= i < |jobs| ==> KeysOf(jobs, key)[i] == key(jobs[i])
    decreases |jobs|
  {
    if |jobs| > 0 {
      KeysOfIndex(jobs[..|jobs| - 1], key);
    }
  }

  /** A duration counts toward the average when it is truthy: present and
      not zero. */
  predicate HasDuration(j: Job) {
    j.duration_seconds.Some? && j.duration_seconds.value != 0
  }

  /** The jobs with a truthy duration, and the sum of their durations. */
  function DurationCount(jobs: seq<Job>): (n: nat)
    ensures n <= |jobs|
    ensures n == 0 <==> forall i :: 0 <= i < |jobs| ==> !HasDuration(jobs[i])
    decreases |jobs|
  {
    if |jobs| == 0 then 0
    else
      var k := |jobs| - 1;
      DurationCount(jobs[..k]) + if HasDuration(jobs[k]) then 1 else 0
  }

  function DurationSum(jobs: seq<Job>): int
    decreases |jobs|
  {
    if |jobs| == 0 then 0
    else
      var k := |jobs| - 1;
      DurationSum(jobs[..k]) + if HasDuration(jobs[k]) then jobs[k].duration_seconds.value else 0
  }

  /** Without a truthy duration the sum is zero as well: the average is
      then reported as 0. */
  lemma {:induction false} NoDurationNoSum(jobs: seq<Job>)
    requires DurationCount(jobs) == 0
    ensures DurationSum(jobs) == 0
    decreases |jobs|
  {
    if |jobs| > 0 {
      var k := |jobs| - 1;
      assert forall i :: 0 <= i < k ==> jobs[..k][i] == jobs[i];
      NoDurationNoSum(jobs[..k]);
    }
  }

  /** The statistics over a list of jobs, one loop pass per job: a count
      of each status, user and resolution, and the sum and count of the
      truthy durations. */
  function StatsOf(jobs: seq<Job>): (st: Stats)
    ensures st.total == |jobs|
    decreases |jobs|
  {
    if |jobs| == 0 then Stats(0, map[], map[], map[], 0, 0)
    else Step(StatsOf(jobs[..|jobs| - 1]), jobs[|jobs| - 1])
  }

  /** The loop's counts are the tallies of each job's status, user and
      resolution. */
  lemma {:induction false} StatsTallies(jobs: seq<Job>)
    ensures var st := StatsOf(jobs);
            && st.byStatus == Tally(KeysOf(jobs, StatusKey))
            && st.byUser == Tally(KeysOf(jobs, UserKey))
            && st.byResolution == Tally(KeysOf(jobs, ResolutionKey))
    decreases |jobs|
  {
    if |jobs| > 0 {
      var init, j := jobs[..|jobs| - 1], jobs[|jobs| - 1];
      StatsTallies(init);
      TallySnoc(KeysOf(init, StatusKey), StatusKey(j));
      TallySnoc(KeysOf(init, UserKey), UserKey(j));
      TallySnoc(KeysOf(init, ResolutionKey), ResolutionKey(j));
    }
  }

  /** The loop's duration figures are the sum and count of the truthy
      durations. */
  lemma {:induction false} StatsDurations(jobs: seq<Job>)
    ensures StatsOf(jobs).durationSum == DurationSum(jobs)
    ensures StatsOf(jobs).durationCount == DurationCount(jobs)
    decreases |jobs|
  {
    if |jobs| > 0 {
      StatsDurations(jobs[..|jobs| - 1]);
    }
  }

  /** The counts of each map add up to the number of jobs. */
  lemma StatsSumToTotal(jobs: seq<Job>)
    ensures var st := StatsOf(jobs);
            && SumValues(st.byStatus) == st.total
            && SumValues(st.byUser) == st.total
            && SumValues(st.byResolution) == st.total
  {
    StatsTallies(jobs);
    TallySum(KeysOf(jobs, StatusKey));
    TallySum(KeysOf(jobs, UserKey));
    TallySum(KeysOf(jobs, ResolutionKey));
  }

  /** The status map holds an entry for exactly the statuses seen, each
      counting the jobs with that status. */
  lemma StatsCountEveryJob(jobs: seq<Job>)
    ensures var st := StatsOf(jobs);
            && (forall k :: k in st.byStatus <==> exists i :: 0 <= i < |jobs| && StatusKey(jobs[i]) == k)
            && (forall k :: k in st.byStatus ==> st.byStatus[k] == multiset(KeysOf(jobs, StatusKey))[k])
  {
    StatsTallies(jobs);
    TallyOfKeys(jobs, StatusKey);
    TallyCounts(KeysOf(jobs, StatusKey));
  }

  /** A key is counted exactly when some job has it. */
  lemma TallyOfKeys(jobs: seq<Job>, key: Job -> string)
    ensures forall k :: k in Tally(KeysOf(jobs, key)) <==> exists i :: 0 <= i < |jobs| && key(jobs[i]) == k
  {
    var ks := KeysOf(jobs, key);
    TallyCounts(ks);
    KeysOfIndex(jobs, key);
    forall k | k in ks ensures exists i :: 0 <= i < |jobs| && key(jobs[i]) == k {
      var i :| 0 <= i < |ks| && ks[i] == k;
    }
  }

  /** One pass of the statistics loop: the job's status, user and
      resolution each counted once more, its duration added when truthy. */
  function Step(st: Stats, j: Job): Stats {
    Stats(st.total + 1,
          Bump(st.byStatus, StatusKey(j)),
          Bump(st.byUser, UserKey(j)),
          Bump(st.byResolution, ResolutionKey(j)),
          st.durationSum + (if HasDuration(j) then j.duration_seconds.value else 0),
          st.durationCount + (if HasDuration(j) then 1 else 0))
  }

  /** The statistics loop over every scanned job computes `StatsOf`. */
  method ComputeStats(jobs: seq<Job>) returns (st: Stats)
    ensures st == StatsOf(jobs)
  {
    st := Stats(0, map[], map[], map[], 0, 0);
    var i := 0;
    while i < |jobs|
      invariant 0 <= i <= |jobs|
      invariant st == StatsOf(jobs[..i])
    {
      assert jobs[..i + 1][..i] == jobs[..i];
      st := Step(st, jobs[i]);
      i := i + 1;
    }
    assert jobs[..i] == jobs;
  }

  predicate Allowed(origin: Option<string>) {
    origin.Some? && origin.value in AdminOrigins
  }

  function MethodError(m: Option<string>): string {
    "Method " + (if m.Some? then m.value else "None") + " not allowed"
  }

  /** The handler. A preflight answers 200 for an admin origin and 403
      otherwise. Any other method but GET is a 500; a GET without a
      caller is 401; an unreadable page number or size, or a failing scan,
      is a 500; otherwise the answer is 200 with the clamped page of all
      jobs, newest first, the counts and the statistics. */
  function HandleAdminList(req: AdminRequest, items: Option<seq<Job>>): (r: Reply)
    ensures req.httpMethod == Some("OPTIONS") ==> r == Reply(if Allowed(req.origin) then 200 else 403, NoBody)
    ensures req.httpMethod != Some("OPTIONS") && req.httpMethod != Some("GET") ==>
              r == Reply(500, ErrorBody(MethodError(req.httpMethod)))
    ensures req.httpMethod == Some("GET") && UserIdFromToken(req.authorization, req.decoded, false).None? ==>
              r == Reply(401, ErrorBody("Unauthorized"))
    ensures r.code in {200, 401, 403, 500}
    ensures r.code == 200 <==>
              || (req.httpMethod == Some("OPTIONS") && Allowed(req.origin))
              || (&& req.httpMethod == Some("GET")
                  && UserIdFromToken(req.authorization, req.decoded, false).Some?
                  && ReadInt(req.page, 1).Success? && ReadInt(req.pageSize, DefaultPageSize).Success?
                  && items.Some?)
    ensures r.body.ListBody? ==>
              ReadInt(req.page, 1).Success? && ReadInt(req.pageSize, DefaultPageSize).Success? && items.Some?
    ensures r.body.ListBody? ==>
              var l := r.body.list;
              && l.page == ClampPage(ReadInt(req.page, 1).value)
              && l.pageSize == ClampPageSize(ReadInt(req.pageSize, DefaultPageSize).value, MaxPageSize, DefaultPageSize)
              && l.total == l.rawCount == |items.value| && l.stats.total == l.total
              && |l.jobs| <= l.pageSize
              && l.total <= l.totalPages * l.pageSize
              && (l.totalPages > 0 ==> (l.totalPages - 1) * l.pageSize < l.total)
              && l.stats == StatsOf(items.value)
              && l.jobs == PageOf(SortNewestFirst(items.value), l.page, l.pageSize)
  {
    if req.httpMethod == Some("OPTIONS") then Reply(if Allowed(req.origin) then 200 else 403, NoBody)
    else if req.httpMethod != Some("GET") then Reply(500, ErrorBody(MethodError(req.httpMethod)))
    else if UserIdFromToken(req.authorization, req.decoded, false).None? then Reply(401, ErrorBody("Unauthorized"))
    else match (ReadInt(req.page, 1), ReadInt(req.pageSize, DefaultPageSize))
      case (Failure(msg), _) => Reply(500, ErrorBody(msg))
      case (_, Failure(msg)) => Reply(500, ErrorBody(msg))
      case (Success(page), Success(size)) =>
        match items
        case None => Reply(500, ErrorBody(ScanError))
        case Some(all) =>
          var p := ClampPage(page);
          var s := ClampPageSize(size, MaxPageSize, DefaultPageSize);
          var sorted := SortNewestFirst(all);
          Reply(200, ListBody(AdminList(PageOf(sorted, p, s), |all|, p, s, TotalPages(|all|, s),
                                        StatsOf(all), |all|)))
  }

  /** The error text of a failing scan; the table's own message is not
      modelled. */
  const ScanError: string := "scan failed"

  /** Who the caller is does not matter: any two authenticated callers get
      the same answer to the same query. */
  lemma AnyCallerSeesAll(a: AdminRequest, b: AdminRequest, items: Option<seq<Job>>)
    requires a.httpMethod == b.httpMethod == Some("GET") && a.page == b.page && a.pageSize == b.pageSize
    requires UserIdFromToken(a.authorization, a.decoded, false).Some?
    requires UserIdFromToken(b.authorization, b.decoded, false).Some?
    ensures HandleAdminList(a, items) == HandleAdminList(b, items)
  {
  }

  /** A token that cannot be decoded is refused here, where the user-facing
      handlers would fall back to the test identity. */
  lemma UndecodableTokenRefused(req: AdminRequest, items: Option<seq<Job>>)
    requires req.httpMethod == Some("GET") && req.decoded.None?
    ensures HandleAdminList(req, items).code == 401
    ensures Present(req.authorization) && StartsWith(req.authorization.value, "Bearer ") ==>
              UserIdFromToken(req.authorization, req.decoded, true) == Some(TestUserId)
  {
  }
}
