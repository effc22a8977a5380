/** The newer admin console's jobs API (temp-lambda/admin-jobs-lambda.py):
    one handler behind `GET /v1/admin/jobs` and `GET /v1/admin/jobs/{jobId}`.
    The caller must be one of four fixed administrator ids. A job id in the
    path answers that job with administrator data and up to five related
    jobs; otherwise the handler scans the table page by page until it holds
    enough items, sorts them newest first and answers the `limit` newest
    with statistics over everything scanned.

    This handler reads `jobStatus` and `userId`, not the pipeline's
    `status` and `user_id`, except that the user filter accepts either. */
module AdminConsole {

  import opened Wrappers
  import opened Text
  import opened Jobs
  import opened Auth
  import opened Listing
  import opened Counting
  import AdminJobs

  const AdminIds: seq<string> := [
    "f4c8e4a8-3081-70cd-43f9-ea8a7b407430",
    "04d8c4d8-20f1-7000-5cf5-90247ec54b3a",
    "44088418-f0d1-7016-37c9-3bbf83358bb6",
    "5438d488-90d1-70e8-89ae-42946ffbaea7"
  ]

  /** The bucket the job outputs live in (the `S3_BUCKET` default). */
  const Bucket := "deepfound-jobs-prod"
  const Unknown := "UNKNOWN"
  const UnknownEmail := "Unknown"
  const DefaultLimit: nat := 50
  /** Items one scan request evaluates, and how many related jobs are shown. */
  const ScanChunk := 100
  const RelatedLimit := 5
  const ListFailure := "Failed to list jobs"
  const DetailFailure := "Failed to get job details"

  // ---------------------------------------------------------------------
  // Requests, environment, replies

  /** The invocation: the gateway authorizer's claims, the path parameters
      and the query string (each `None` when null). */
  datatype ConsoleRequest = ConsoleRequest(authorizer: Authorizer,
                                           pathParameters: Option<map<string, string>>,
                                           query: Option<map<string, string>>)

  /** One response of the paged table scan: the items the page read,
      before the scan's filter expression keeps those that match (`Select`
      applies it), or an exception. */
  datatype Response = Items(items: seq<Job>) | Raises

  /** The world the handler reads: the table as `get_item` sees it and
      whether that read raises; the responses of the listing scan in order
      (a response has a continuation key exactly when another follows);
      the related-jobs scan's items in table order, `None` when it raises;
      the directory's e-mail address per user; and the clock. */
  datatype Env = Env(store: Store, getFails: bool, listScan: seq<Response>,
                     relatedScan: Option<seq<Job>>, emails: map<string, string>, now: string)

  /** A job as the console shows it: the stored item, the owner's e-mail
      address when the job names an owner, and a readable status. */
  datatype EnrichedJob = EnrichedJob(job: Job, userEmail: Option<string>, statusDisplay: string)

  datatype ConsoleStats = ConsoleStats(total: nat, byStatus: map<string, nat>, totalCreditsUsed: int)

  datatype ConsoleList = ConsoleList(jobs: seq<EnrichedJob>, count: nat, stats: ConsoleStats,
                                     scannedCount: nat, hasMore: bool)

  datatype AdminData = AdminData(s3Location: string, errorDetails: Option<string>, creditsUsed: int)

  /** A related job, projected to the four attributes the query asks for. */
  datatype RelatedJob = RelatedJob(jobId: string, jobStatus: Option<string>, createdAt: Option<string>,
                                   prompt: Option<string>)

  datatype ConsoleDetail = ConsoleDetail(job: EnrichedJob, adminData: AdminData,
                                         relatedJobs: seq<RelatedJob>, retrievedBy: string, retrievedAt: string)

  datatype Body = ErrorBody(error: string) | ListBody(list: ConsoleList) | DetailBody(detail: ConsoleDetail)

  datatype Reply = Reply(code: int, body: Body)

  // ---------------------------------------------------------------------
  // Dispatch

  /** `params.get(name)` on an optional string map. */
  function Param(params: Option<map<string, string>>, name: string): (r: Option<string>)
    ensures r.Some? <==> params.Some? && name in params.value
    ensures r.Some? ==> r.value == params.value[name]
  {
    if params.Some? && name in params.value then Some(params.value[name]) else None
  }

  /** `path_params.get("jobId") or path_params.get("id")`, when truthy. */
  function JobIdParam(params: Option<map<string, string>>): (r: Option<string>)
    ensures r.Some? ==> r.value != ""
    ensures Present(Param(params, "jobId")) ==> r == Param(params, "jobId")
    ensures !Present(Param(params, "jobId")) ==> (r.Some? <==> Present(Param(params, "id")))
    ensures !Present(Param(params, "jobId")) && r.Some? ==> r == Param(params, "id")
  {
    var byJobId := Param(params, "jobId");
    if Present(byJobId) then byJobId
    else
      var byId := Param(params, "id");
      if Present(byId) then byId else None
  }

  // ---------------------------------------------------------------------
  // Enrichment

  /** `get_status_display`: the five pipeline states get a readable text;
      anything else is shown unchanged. */
  function StatusDisplay(status: string): (d: string)
    ensures status !in {"QUEUED", "PROCESSING", "COMPLETED", "FAILED", "CANCELLED"} ==> d == status
  {
    if status == "QUEUED" then "Waiting in Queue"
    else if status == "PROCESSING" then "Processing Video"
    else if status == "COMPLETED" then "Completed Successfully"
    else if status == "FAILED" then "Failed to Process"
    else if status == "CANCELLED" then "Cancelled by User"
    else status
  }

  /** Showing a status twice shows it once: no readable text is itself one
      of the five states. */
  lemma StatusDisplayIdempotent(status: string)
    ensures StatusDisplay(StatusDisplay(status)) == StatusDisplay(status)
  {
  }

  /** Distinct states keep distinct texts, so the readable status never
      merges two of the five states, nor a state with an unmapped value
      that is not itself a readable text. */
  lemma StatusDisplayInjective(a: string, b: string)
    requires a !in {"Waiting in Queue", "Processing Video", "Completed Successfully", "Failed to Process", "Cancelled by User"}
    requires b !in {"Waiting in Queue", "Processing Video", "Completed Successfully", "Failed to Process", "Cancelled by User"}
    ensures StatusDisplay(a) == StatusDisplay(b) ==> a == b
  {
  }

  /** The directory's answer for a user; a user it does not know, or a
      failed lookup, reads as "Unknown". */
  function EmailOf(emails: map<string, string>, userId: string): (e: string)
    ensures userId in emails ==> e == emails[userId]
    ensures userId !in emails ==> e == UnknownEmail
  {
    if userId in emails then emails[userId] else UnknownEmail
  }

  function JobStatusKey(j: Job): string {
    j.jobStatus.GetOr(Unknown)
  }

  /** `enrich_job_data`, without the duration (a date-time difference). */
  function Enrich(j: Job, emails: map<string, string>): (e: EnrichedJob)
    ensures e.job == j
    ensures e.userEmail.Some? <==> Present(j.userId)
    ensures e.userEmail.Some? ==> e.userEmail.value == EmailOf(emails, j.userId.value)
    ensures e.statusDisplay == StatusDisplay(JobStatusKey(j))
  {
    EnrichedJob(j, if Present(j.userId) then Some(EmailOf(emails, j.userId.value)) else None,
                StatusDisplay(JobStatusKey(j)))
  }

  function EnrichAll(js: seq<Job>, emails: map<string, string>): (es: seq<EnrichedJob>)
    ensures |es| == |js| && forall i :: 0 <= i < |js| ==> es[i] == Enrich(js[i], emails)
  {
    seq(|js|, i requires 0 <= i < |js| => Enrich(js[i], emails))
  }

  // ---------------------------------------------------------------------
  // Statistics

  /** `int(job.get("creditsUsed", 0))` summed over the jobs. */
  function CreditsOf(jobs: seq<Job>): int
    decreases |jobs|
  {
    if |jobs| == 0 then 0
    else CreditsOf(jobs[..|jobs| - 1]) + jobs[|jobs| - 1].creditsUsed.GetOr(0)
  }

  /** Credits add up across consecutive batches of jobs, such as the pages
      of a scan. */
  lemma {:induction false} CreditsAppend(a: seq<Job>, b: seq<Job>)
    ensures CreditsOf(a + b) == CreditsOf(a) + CreditsOf(b)
    decreases |b|
  {
    if |b| > 0 {
      var b' := b[..|b| - 1];
      assert (a + b)[..|a + b| - 1] == a + b';
      CreditsAppend(a, b');
    } else {
      assert a + b == a;
    }
  }

  /** `calculate_job_stats` without the average duration. */
  function StatsFor(jobs: seq<Job>): (st: ConsoleStats)
    ensures st.total == |jobs|
  {
    ConsoleStats(|jobs|, Tally(AdminJobs.KeysOf(jobs, JobStatusKey)), CreditsOf(jobs))
  }

  /** The status counts have one entry per status seen, counting its jobs,
      and add up to the number of jobs. */
  lemma StatsCountEveryJob(jobs: seq<Job>)
    ensures var st := StatsFor(jobs);
            && SumValues(st.byStatus) == st.total
            && (forall k :: k in st.byStatus <==> exists i :: 0 <= i < |jobs| && JobStatusKey(jobs[i]) == k)
            && (forall k :: k in st.byStatus ==> st.byStatus[k] == multiset(AdminJobs.KeysOf(jobs, JobStatusKey))[k])
  {
    var ks := AdminJobs.KeysOf(jobs, JobStatusKey);
    TallySum(ks);
    TallyCounts(ks);
    AdminJobs.TallyOfKeys(jobs, JobStatusKey);
  }

  // ---------------------------------------------------------------------
  // The listing scan

  /** The `status` and `userId` query filters, each when truthy. */
  datatype Filter = Filter(status: Option<string>, user: Option<string>)

  function FilterOf(query: Option<map<string, string>>): (f: Filter)
    ensures f.status.Some? <==> Present(Param(query, "status"))
    ensures f.user.Some? <==> Present(Param(query, "userId"))
    ensures f.status.Some? ==> f.status == Param(query, "status")
    ensures f.user.Some? ==> f.user == Param(query, "userId")
  {
    var s := Param(query, "status");
    var u := Param(query, "userId");
    Filter(if Present(s) then s else None, if Present(u) then u else None)
  }

  /** `jobStatus = :status` and `(userId = :u OR user_id = :u)`, each only
      when that filter is set. */
  predicate Matches(j: Job, f: Filter) {
    && (f.status.Some? ==> j.jobStatus == f.status)
    && (f.user.Some? ==> j.userId == f.user || j.user_id == f.user)
  }

  /** The items of one scan response that pass the filter, in order. */
  function Select(xs: seq<Job>, f: Filter): (r: seq<Job>)
    ensures |r| <= |xs|
    decreases |xs|
  {
    if |xs| == 0 then []
    else
      var rest := Select(xs[..|xs| - 1], f);
      var x := xs[|xs| - 1];
      if Matches(x, f) then rest + [x] else rest
  }

  /** A job is selected exactly when it is in the response and passes the
      filter. */
  lemma {:induction false} SelectMembers(xs: seq<Job>, f: Filter)
    ensures forall j :: j in Select(xs, f) <==> j in xs && Matches(j, f)
    decreases |xs|
  {
    if |xs| > 0 {
      var init := xs[..|xs| - 1];
      assert xs == init + [xs[|xs| - 1]];
      SelectMembers(init, f);
    }
  }

  /** Response `k` of the scan; past the last one the table is exhausted. */
  function Answer(pages: seq<Response>, k: nat): Response {
    if k < |pages| then pages[k] else Items([])
  }

  /** The filtered items of the first `n` responses, in scan order. */
  function Selected(pages: seq<Response>, f: Filter, n: nat): seq<Job>
    decreases n
  {
    if n == 0 then []
    else
      Selected(pages, f, n - 1) + match Answer(pages, n - 1) {
        case Items(xs) => Select(xs, f)
        case Raises => []
      }
  }

  /** None of the first `n` responses raises. */
  predicate NoneRaise(pages: seq<Response>, n: nat)
    decreases n
  {
    n == 0 || (NoneRaise(pages, n - 1) && Answer(pages, n - 1).Items?)
  }

  /** `NoneRaise` says what its name says: no response before `n` raises. */
  lemma {:induction false} NoneRaiseMeans(pages: seq<Response>, n: nat)
    ensures NoneRaise(pages, n) <==> forall k :: 0 <= k < n ==> Answer(pages, k).Items?
    decreases n
  {
    if n > 0 {
      NoneRaiseMeans(pages, n - 1);
    }
  }

  /** What the scan loop ends with: the number of responses read, whose
      selected items it collected, or the index of the response that
      raised. */
  datatype ScanResult = Scanned(read: nat) | ScanFailed(at: nat)

  /** The scan loop from response `k` on, holding the items of the first
      `k`: it stops once it holds `minItems` items or after the response
      without a continuation key. */
  function GatherFrom(pages: seq<Response>, f: Filter, minItems: int, k: nat): (r: ScanResult)
    requires NoneRaise(pages, k) && (k == 0 || k < |pages|)
    requires k == 0 || |Selected(pages, f, k - 1)| < minItems
    ensures ReadOutcome(pages, f, minItems, r)
    decreases |pages| - k
  {
    if |Selected(pages, f, k)| >= minItems then
      Scanned(k)
    else match Answer(pages, k)
      case Raises => ScanFailed(k)
      case Items(_) =>
        NoneRaiseStep(pages, k);
        if k + 1 >= |pages| then
          Scanned(k + 1)
        else GatherFrom(pages, f, minItems, k + 1)
  }


  function Gather(pages: seq<Response>, f: Filter, minItems: int): (r: ScanResult)
    ensures ReadOutcome(pages, f, minItems, r)
  {
    GatherFrom(pages, f, minItems, 0)
  }

  /** `max(limit * 10, 500)`. */
  function MinScan(limit: int): (m: int)
    ensures m >= 500 && m >= limit * 10
    ensures m == 500 || m == limit * 10
  {
    if limit * 10 > 500 then limit * 10 else 500
  }

  /** The scan loop, as the handler runs it. */
  method ScanUntil(pages: seq<Response>, f: Filter, minItems: int) returns (r: ScanResult, items: seq<Job>)
    ensures ReadOutcome(pages, f, minItems, r)
    ensures r == Gather(pages, f, minItems)
    ensures r.Scanned? ==> items == Selected(pages, f, r.read)
  {
    var all: seq<Job> := [];
    var k: nat := 0;
    while |all| < minItems
      invariant all == Selected(pages, f, k) && NoneRaise(pages, k)
      invariant k == 0 || k < |pages|
      invariant k == 0 || |Selected(pages, f, k - 1)| < minItems
      decreases |pages| - k
    {
      match Answer(pages, k)
      case Raises =>
        r, items := ScanFailed(k), all;
        FailedExit(pages, f, minItems, k);
        return;
      case Items(xs) =>
        all := all + Select(xs, f);
        NoneRaiseStep(pages, k);
        if k + 1 >= |pages| {
          r, items := Scanned(k + 1), all;
          LastExit(pages, f, minItems, k);
          return;
        }
        k := k + 1;
    }
    r, items := Scanned(k), all;
    EnoughExit(pages, f, minItems, k);
  }

  /** The scan stops at a raising response. */
  lemma FailedExit(pages: seq<Response>, f: Filter, minItems: int, k: nat)
    requires NoneRaise(pages, k) && Answer(pages, k).Raises? && |Selected(pages, f, k)| < minItems
    ensures Gather(pages, f, minItems) == ScanFailed(k)
  {
    ReadOutcomeUnique(pages, f, minItems, ScanFailed(k), Gather(pages, f, minItems));
  }

  /** The scan stops after the last response, still short of items. */
  lemma LastExit(pages: seq<Response>, f: Filter, minItems: int, k: nat)
    requires NoneRaise(pages, k + 1) && (k == 0 || k < |pages|) && k + 1 >= |pages|
    requires |Selected(pages, f, k)| < minItems
    ensures Gather(pages, f, minItems) == Scanned(k + 1)
  {
    ReadOutcomeUnique(pages, f, minItems, Scanned(k + 1), Gather(pages, f, minItems));
  }

  /** The scan stops once it holds enough items. */
  lemma EnoughExit(pages: seq<Response>, f: Filter, minItems: int, k: nat)
    requires NoneRaise(pages, k) && (k == 0 || k < |pages|)
    requires k == 0 || |Selected(pages, f, k - 1)| < minItems
    requires |Selected(pages, f, k)| >= minItems
    ensures Gather(pages, f, minItems) == Scanned(k)
  {
    ReadOutcomeUnique(pages, f, minItems, Scanned(k), Gather(pages, f, minItems));
  }

  /** The loop's outcome `r` read a prefix of the responses with no
      exception among them, and either holds enough items or read the last
      response, having needed the last one it read; or the response it
      stopped at raised. */
  predicate ReadOutcome(pages: seq<Response>, f: Filter, minItems: int, r: ScanResult) {
    && (r.Scanned? ==> NoneRaise(pages, r.read))
    && (r.Scanned? ==> |Selected(pages, f, r.read)| >= minItems || (r.read >= |pages| && r.read > 0))
    && (r.Scanned? ==> r.read <= |pages| || r.read <= 1)
    && (r.Scanned? && r.read > 0 ==> |Selected(pages, f, r.read - 1)| < minItems)
    && (r.ScanFailed? ==> Answer(pages, r.at).Raises? && NoneRaise(pages, r.at)
                          && |Selected(pages, f, r.at)| < minItems)
  }

  /** At most one outcome fits `ReadOutcome`: it pins the scan down. */
  lemma ReadOutcomeUnique(pages: seq<Response>, f: Filter, minItems: int, r1: ScanResult, r2: ScanResult)
    requires ReadOutcome(pages, f, minItems, r1) && ReadOutcome(pages, f, minItems, r2)
    ensures r1 == r2
  {
    if r1.ScanFailed? && r2.ScanFailed? {
      if r1.at < r2.at {
        NoneRaiseAt(pages, r2.at, r1.at);
      } else if r2.at < r1.at {
        NoneRaiseAt(pages, r1.at, r2.at);
      }
    } else if r1.Scanned? && r2.Scanned? {
      if r1.read < r2.read {
        SelectedGrows(pages, f, r1.read, r2.read - 1);
      } else if r2.read < r1.read {
        SelectedGrows(pages, f, r2.read, r1.read - 1);
      }
    } else if r1.ScanFailed? {
      FailedNotScanned(pages, f, minItems, r1.at, r2.read);
    } else {
      FailedNotScanned(pages, f, minItems, r2.at, r1.read);
    }
  }

  lemma FailedNotScanned(pages: seq<Response>, f: Filter, minItems: int, at: nat, n: nat)
    requires ReadOutcome(pages, f, minItems, ScanFailed(at))
    ensures !ReadOutcome(pages, f, minItems, Scanned(n))
  {
    if ReadOutcome(pages, f, minItems, Scanned(n)) {
      if at < n {
        NoneRaiseAt(pages, n, at);
      } else {
        SelectedGrows(pages, f, n, at);
      }
    }
  }

  lemma {:induction false} NoneRaiseAt(pages: seq<Response>, n: nat, k: nat)
    requires NoneRaise(pages, n) && k < n
    ensures Answer(pages, k).Items?
    decreases n
  {
    if k < n - 1 {
      NoneRaiseAt(pages, n - 1, k);
    }
  }

  lemma NoneRaiseStep(pages: seq<Response>, k: nat)
    requires NoneRaise(pages, k) && Answer(pages, k).Items?
    ensures NoneRaise(pages, k + 1)
  {
  }

  /** Collected items only grow as more responses are read. */
  lemma {:induction false} SelectedGrows(pages: seq<Response>, f: Filter, m: nat, n: nat)
    requires m <= n
    ensures |Selected(pages, f, m)| <= |Selected(pages, f, n)|
    ensures Selected(pages, f, m) == Selected(pages, f, n)[..|Selected(pages, f, m)|]
    decreases n - m
  {
    if m < n {
      SelectedGrows(pages, f, m, n - 1);
    }
  }

  /** Past the last response nothing more is collected. */
  lemma {:induction false} SelectedPastEnd(pages: seq<Response>, f: Filter, n: nat)
    requires n >= |pages|
    ensures Selected(pages, f, n) == Selected(pages, f, |pages|)
    decreases n
  {
    if n > |pages| {
      SelectedPastEnd(pages, f, n - 1);
    }
  }

  /** A table smaller than the scan target is read to the end: the loop
      collects every item that passes the filter. */
  lemma SmallTableReadWhole(pages: seq<Response>, f: Filter, minItems: int)
    requires NoneRaise(pages, |pages|) && |Selected(pages, f, |pages|)| < minItems
    ensures Gather(pages, f, minItems).Scanned?
    ensures Selected(pages, f, Gather(pages, f, minItems).read) == Selected(pages, f, |pages|)
  {
    var r := Gather(pages, f, minItems);
    if r.ScanFailed? && r.at < |pages| {
      NoneRaiseAt(pages, |pages|, r.at);
    }
    if r.read <= |pages| {
      SelectedGrows(pages, f, r.read, |pages|);
      assert r.read >= |pages|;
    } else {
      SelectedPastEnd(pages, f, r.read);
    }
  }

  /** Every collected item passes the filter. */
  lemma {:induction false} SelectedMatch(pages: seq<Response>, f: Filter, n: nat)
    ensures forall j :: j in Selected(pages, f, n) ==> Matches(j, f)
    decreases n
  {
    if n > 0 {
      SelectedMatch(pages, f, n - 1);
      if Answer(pages, n - 1).Items? {
        SelectMembers(Answer(pages, n - 1).items, f);
      }
    }
  }

  // ---------------------------------------------------------------------
  // Related jobs

  function Project(j: Job): RelatedJob {
    RelatedJob(j.jobId, j.jobStatus, j.createdAt, j.prompt)
  }

  function ProjectAll(js: seq<Job>): (r: seq<RelatedJob>)
    ensures |r| == |js| && forall i :: 0 <= i < |js| ==> r[i] == Project(js[i])
  {
    seq(|js|, i requires 0 <= i < |js| => Project(js[i]))
  }

  /** The related-jobs filter: the same `userId`, another job. */
  function SameUser(js: seq<Job>, userId: string, exclude: string): (r: seq<Job>)
    ensures |r| <= |js|
    ensures forall j :: j in r <==> j in js && j.userId == Some(userId) && j.jobId != exclude
    decreases |js|
  {
    if |js| == 0 then []
    else
      var rest := SameUser(js[..|js| - 1], userId, exclude);
      var x := js[|js| - 1];
      assert js == js[..|js| - 1] + [x];
      if x.userId == Some(userId) && x.jobId != exclude then rest + [x] else rest
  }

  lemma {:induction false} SameUserNone(js: seq<Job>, userId: string, exclude: string)
    requires forall x :: x in js ==> x.userId != Some(userId)
    ensures SameUser(js, userId, exclude) == []
    decreases |js|
  {
    if |js| > 0 {
      assert js[|js| - 1] in js;
      assert forall x :: x in js[..|js| - 1] ==> x in js;
      SameUserNone(js[..|js| - 1], userId, exclude);
    }
  }

  /** `get_related_jobs` as written: a scan with `Limit=5` evaluates the
      first five items in table order and only then applies the filter,
      so the user's jobs are looked for among five arbitrary items. */
  function RelatedAsWritten(userId: Option<string>, exclude: string, scan: Option<seq<Job>>): (r: seq<RelatedJob>)
    ensures !Present(userId) || scan.None? ==> r == []
    ensures |r| <= RelatedLimit
  {
    if !Present(userId) || scan.None? then []
    else ProjectAll(SortNewestFirst(SameUser(Take(scan.value, RelatedLimit), userId.value, exclude)))
  }

  /** Related jobs as the handler means them: the five newest other jobs of
      the same user, drawn from the whole table. */
  function RelatedJobs(userId: Option<string>, exclude: string, scan: Option<seq<Job>>): (r: seq<RelatedJob>)
    ensures !Present(userId) || scan.None? ==> r == []
    ensures |r| <= RelatedLimit
  {
    if !Present(userId) || scan.None? then []
    else ProjectAll(Take(SortNewestFirst(SameUser(scan.value, userId.value, exclude)), RelatedLimit))
  }

  /** The limit before the filter loses the user's jobs: when the first
      five items of the table belong to someone else, nothing is related,
      however many other jobs the user has. */
  lemma RelatedMissesLaterJobs(userId: string, exclude: string, table: seq<Job>, j: Job)
    requires userId != "" && |table| > RelatedLimit
    requires forall i :: 0 <= i < RelatedLimit ==> table[i].userId != Some(userId)
    requires j in table && j.userId == Some(userId) && j.jobId != exclude
    ensures RelatedAsWritten(Some(userId), exclude, Some(table)) == []
    ensures |RelatedJobs(Some(userId), exclude, Some(table))| > 0
  {
    var first := Take(table, RelatedLimit);
    assert forall x :: x in first ==> x.userId != Some(userId);
    SameUserNone(first, userId, exclude);
    var hits := SameUser(table, userId, exclude);
    assert j in hits;
    assert |SortNewestFirst(hits)| > 0;
  }

  /** The related jobs are the user's other jobs, newest first, and as many
      of them as there are up to five. */
  lemma RelatedAreNewestOwn(userId: string, exclude: string, table: seq<Job>)
    requires userId != ""
    ensures var r := RelatedJobs(Some(userId), exclude, Some(table));
            var hits := SameUser(table, userId, exclude);
            && |r| == (if |hits| < RelatedLimit then |hits| else RelatedLimit)
            && (forall i :: 0 <= i < |r| ==> exists j :: j in hits && r[i] == Project(j))
            && (forall i, k :: 0 <= i < k < |r| ==> LexLe(r[k].createdAt.GetOr(""), r[i].createdAt.GetOr("")))
  {
    var hits := SameUser(table, userId, exclude);
    var sorted := SortNewestFirst(hits);
    var top := Take(sorted, RelatedLimit);
    var r := RelatedJobs(Some(userId), exclude, Some(table));
    forall i | 0 <= i < |r| ensures exists j :: j in hits && r[i] == Project(j) {
      assert top[i] == sorted[i] && sorted[i] in multiset(hits);
    }
    forall i, k | 0 <= i < k < |r| ensures LexLe(r[k].createdAt.GetOr(""), r[i].createdAt.GetOr("")) {
      assert top[i] == sorted[i] && top[k] == sorted[k];
    }
  }

  // ---------------------------------------------------------------------
  // The two branches

  /** Where a job's outputs are kept. */
  function S3Location(jobId: string): (loc: string)
    ensures |loc| == |"s3://" + Bucket + "/"| + |jobId| + 1
    ensures loc[..|"s3://" + Bucket + "/"|] == "s3://" + Bucket + "/"
  {
    "s3://" + Bucket + "/" + jobId + "/"
  }

  /** The job id is recovered from its location. */
  lemma S3LocationNamesJob(jobId: string)
    ensures var loc := S3Location(jobId); var n := |"s3://" + Bucket + "/"|;
            loc[n..|loc| - 1] == jobId && loc[|loc| - 1] == '/'
  {
  }

  /** The administrator data of the job read under `jobId`. */
  function AdminDataOf(jobId: string, j: Job): AdminData {
    AdminData(S3Location(jobId), j.errorMessage, j.creditsUsed.GetOr(0))
  }

  /** `get_job_details`. */
  function Detail(jobId: string, admin: string, env: Env): (r: Reply)
    ensures r.code in {200, 404, 500}
    ensures r.code == 200 <==> !env.getFails && jobId in env.store
  {
    if env.getFails then Reply(500, ErrorBody(DetailFailure))
    else if jobId !in env.store then Reply(404, ErrorBody("Job not found"))
    else
      var j := env.store[jobId];
      Reply(200, DetailBody(ConsoleDetail(Enrich(j, env.emails), AdminDataOf(jobId, j),
                                          RelatedAsWritten(j.userId, jobId, env.relatedScan), admin, env.now)))
  }

  /** `list_jobs`: any exception, including an unreadable `limit`, is 500. */
  function List(query: Option<map<string, string>>, env: Env): (r: Reply)
    ensures r.code in {200, 500}
  {
    match ReadInt(Param(query, "limit"), DefaultLimit)
    case Failure(_) => Reply(500, ErrorBody(ListFailure))
    case Success(limit) =>
      match Gather(env.listScan, FilterOf(query), MinScan(limit))
      case ScanFailed(_) => Reply(500, ErrorBody(ListFailure))
      case Scanned(n) =>
        var all := Selected(env.listScan, FilterOf(query), n);
        var shown := EnrichAll(Take(SortNewestFirst(all), limit), env.emails);
        Reply(200, ListBody(ConsoleList(shown, |shown|, StatsFor(all), |all|, |all| > limit)))
  }

  /** The caller's `sub` is an administrator's. */
  predicate IsAdmin(a: Authorizer) {
    Subject(a).Some? && Subject(a).value in AdminIds
  }

  /** The handler. */
  function HandleConsole(req: ConsoleRequest, env: Env): (r: Reply)
    ensures Subject(req.authorizer).None? ==> r == Reply(401, ErrorBody("Unauthorized"))
    ensures Subject(req.authorizer).Some? && !IsAdmin(req.authorizer) ==>
              r == Reply(403, ErrorBody("Forbidden - Admin access required"))
    ensures IsAdmin(req.authorizer) && JobIdParam(req.pathParameters).Some? ==>
              r == Detail(JobIdParam(req.pathParameters).value, Subject(req.authorizer).value, env)
    ensures IsAdmin(req.authorizer) && JobIdParam(req.pathParameters).None? ==> r == List(req.query, env)
  {
    match Subject(req.authorizer)
    case None => Reply(401, ErrorBody("Unauthorized"))
    case Some(admin) =>
      if admin !in AdminIds then Reply(403, ErrorBody("Forbidden - Admin access required"))
      else match JobIdParam(req.pathParameters)
        case Some(id) => Detail(id, admin, env)
        case None => List(req.query, env)
  }

  // ---------------------------------------------------------------------
  // Properties

  /** Someone who is not an administrator learns nothing about the table:
      the answer is the same whatever the table holds. */
  lemma GateBeforeTables(req: ConsoleRequest, env1: Env, env2: Env)
    requires !IsAdmin(req.authorizer)
    ensures HandleConsole(req, env1) == HandleConsole(req, env2)
    ensures HandleConsole(req, env1).code in {401, 403}
  {
  }

  /** The detail of a stored job: the item itself, its owner's address,
      where its outputs live, and who asked; the related jobs are those the
      limited scan finds, so a user whose jobs lie past the first five
      items of the related scan is shown none (`RelatedMissesLaterJobs`). */
  lemma DetailShowsStoredJob(jobId: string, admin: string, env: Env)
    requires !env.getFails && jobId in env.store
    ensures var r := Detail(jobId, admin, env);
            && r.body.DetailBody?
            && r.body.detail.job.job == env.store[jobId]
            && r.body.detail.adminData.s3Location == S3Location(jobId)
            && r.body.detail.retrievedBy == admin
            && r.body.detail.relatedJobs == RelatedAsWritten(env.store[jobId].userId, jobId, env.relatedScan)
            && |r.body.detail.relatedJobs| <= RelatedLimit
  {
  }

  /** The first `n` of a newest-first list are at least as new as all
      the others. */
  lemma TakeNewest(sorted: seq<Job>, n: int)
    requires NewestFirst(sorted)
    ensures var top := Take(sorted, n);
            && (forall i :: 0 <= i < |top| ==> top[i] == sorted[i])
            && (forall i, k :: 0 <= i < |top| <= k < |sorted| ==> LexLe(CreatedKey(sorted[k]), CreatedKey(top[i])))
  {
  }

  /** A listing that succeeds shows the `limit` newest scanned jobs (all
      but the last `-limit` for a negative limit); `hasMore` says exactly
      whether more were scanned than the limit; and the statistics cover
      everything scanned. */
  lemma ListShowsNewest(query: Option<map<string, string>>, env: Env)
    requires List(query, env).code == 200
    ensures var limit := ReadInt(Param(query, "limit"), DefaultLimit);
            && limit.Success?
            && Gather(env.listScan, FilterOf(query), MinScan(limit.value)).Scanned?
    ensures var limit := ReadInt(Param(query, "limit"), DefaultLimit).value;
            var all := Selected(env.listScan, FilterOf(query), Gather(env.listScan, FilterOf(query), MinScan(limit)).read);
            var sorted := SortNewestFirst(all);
            var l := List(query, env).body.list;
            && l.count == |l.jobs| <= |all| == l.scannedCount == l.stats.total
            && (limit >= 0 ==> l.count == if limit <= |all| then limit else |all|)
            && (l.hasMore <==> l.scannedCount > limit)
            && (forall i :: 0 <= i < l.count ==> l.jobs[i].job == sorted[i])
            && (forall i, k :: 0 <= i < l.count <= k < |sorted| ==> LexLe(CreatedKey(sorted[k]), CreatedKey(l.jobs[i].job)))
            && l.stats == StatsFor(all)
  {
    var limit := ReadInt(Param(query, "limit"), DefaultLimit).value;
    var all := Selected(env.listScan, FilterOf(query), Gather(env.listScan, FilterOf(query), MinScan(limit)).read);
    var sorted := SortNewestFirst(all);
    var top := Take(sorted, limit);
    var shown := EnrichAll(top, env.emails);
    assert List(query, env) == Reply(200, ListBody(ConsoleList(shown, |shown|, StatsFor(all), |all|, |all| > limit)));
    TakeNewest(sorted, limit);
  }

  /** Every listed job passes the status and user filters. */
  lemma ListedJobsMatch(query: Option<map<string, string>>, env: Env, i: nat)
    requires List(query, env).code == 200 && i < List(query, env).body.list.count
    ensures Matches(List(query, env).body.list.jobs[i].job, FilterOf(query))
  {
    ListShowsNewest(query, env);
    var limit := ReadInt(Param(query, "limit"), DefaultLimit).value;
    var g := Gather(env.listScan, FilterOf(query), MinScan(limit));
    SelectedMatch(env.listScan, FilterOf(query), g.read);
    var all := Selected(env.listScan, FilterOf(query), g.read);
    var sorted := SortNewestFirst(all);
    assert sorted[i] in multiset(all);
  }
}
