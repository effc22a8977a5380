/** One job's status (admin-vanilla/temp-cors-handler/get-job-lambda.py):
    `GET /v1/jobs/{id}` answers the job to its owner. The checks run in a
    fixed order, each with its own code: method, caller (401), job id
    (400), existence (404), ownership (403). */
module GetJob {

  import opened Wrappers
  import opened Text
  import opened Jobs
  import opened Auth
  import opened Listing
  import ListJobs

  /** The invocation as the handler reads it. `pathParameters` is the
      gateway's path-parameter object, `None` when null. */
  datatype GetRequest = GetRequest(httpMethod: Option<string>, origin: Option<string>,
                                   authorization: Option<string>, decoded: Option<TokenClaims>,
                                   pathParameters: Option<map<string, string>>, path: Option<string>)

  /** One job as the status response shows it. */
  datatype JobView = JobView(jobId: string, status: string, createdAt: string, updatedAt: string,
                           outputUrl: Option<string>, audioUrl: Option<string>, prompt: Option<string>,
                           duration_seconds: Option<int>, resolution: Option<string>, tier: Option<string>,
                           error_message: Option<string>)

  datatype Body = NoBody | ErrorBody(error: string) | JobBody(job: JobView)

  datatype Reply = Reply(code: int, body: Body)

  function FormatView(j: Job): (d: JobView)
    ensures d.jobId == j.jobId && d.prompt == j.prompt && d.outputUrl == j.outputUrl
    ensures d.status == j.status.GetOr(ListJobs.UnknownStatus)
    ensures d.createdAt == j.createdAt.GetOr(DefaultTimestamp) && d.updatedAt == j.updatedAt.GetOr(DefaultTimestamp)
    ensures d.audioUrl == j.audioUrl && d.duration_seconds == j.duration_seconds
    ensures d.resolution == j.resolution && d.tier == j.tier && d.error_message == j.error_message
  {
    JobView(j.jobId, j.status.GetOr(ListJobs.UnknownStatus), j.createdAt.GetOr(DefaultTimestamp),
           j.updatedAt.GetOr(DefaultTimestamp), j.outputUrl, j.audioUrl, j.prompt, j.duration_seconds,
           j.resolution, j.tier, j.error_message)
  }

  /** The job id: the `id` path parameter when the parameters are a
      non-empty object holding it; otherwise the third segment of a path
      of the form `v1/jobs/...` once surrounding slashes are stripped. */
  function JobIdFromPath(params: Option<map<string, string>>, path: Option<string>): (r: Option<string>)
    ensures params.Some? && "id" in params.value ==> r == Some(params.value["id"])
    ensures r.Some? && !(params.Some? && "id" in params.value) ==> '/' !in r.value
  {
    if params.Some? && |params.value| > 0 && "id" in params.value then Some(params.value["id"])
    else if path.Some? && |path.value| > 0 then
      var parts := Split(Strip(path.value, {'/'}), '/');
      if |parts| >= 3 && parts[0] == "v1" && parts[1] == "jobs" then Some(parts[2]) else None
    else None
  }

  /** Without an `id` parameter, a path whose stripped form does not start
      with `v1/jobs/` names no job. */
  lemma {:induction false} NonJobPathNamesNothing(params: Option<map<string, string>>, path: Option<string>)
    requires !(params.Some? && "id" in params.value)
    requires path.None? || !StartsWith(Strip(path.value, {'/'}), "v1/jobs/")
    ensures JobIdFromPath(params, path).None?
  {
    if path.Some? && |path.value| > 0 {
      var stripped := Strip(path.value, {'/'});
      var parts := Split(stripped, '/');
      if |parts| >= 3 && parts[0] == "v1" && parts[1] == "jobs" {
        JobsPartsPrefix(parts);
      }
    }
  }

  /** Parts `v1`, `jobs`, ... join to a string starting with `v1/jobs/`. */
  lemma JobsPartsPrefix(parts: seq<string>)
    requires |parts| >= 3 && parts[0] == "v1" && parts[1] == "jobs"
    ensures StartsWith(Join(parts, '/'), "v1/jobs/")
  {
    var rest := Join(parts[2..], '/');
    assert parts[1..][1..] == parts[2..];
    assert Join(parts[1..], '/') == "jobs" + ['/'] + rest;
    assert Join(parts, '/') == "v1/jobs/" + rest;
  }

  /** A job fetched by id: none when the key is absent or the read raises. */
  function Lookup(store: Store, id: string, readFails: bool): (r: Option<Job>)
    ensures r.Some? <==> !readFails && id in store
    ensures r.Some? ==> r.value == store[id]
  {
    if readFails || id !in store then None else Some(store[id])
  }

  /** The code of the handler's `except`, chosen by words in the exception
      text. */
  function ErrorCode(msg: string): (code: int)
    ensures code in {400, 401, 403, 500}
    ensures code == 401 <==> Contains(msg, "Unauthorized")
    ensures code == 400 <==> !Contains(msg, "Unauthorized") && (Contains(msg, "Invalid") || Contains(msg, "not found"))
    ensures code == 403 <==> !Contains(msg, "Unauthorized") && !Contains(msg, "Invalid") && !Contains(msg, "not found")
                             && Contains(msg, "Access denied")
  {
    if Contains(msg, "Unauthorized") then 401
    else if Contains(msg, "Invalid") || Contains(msg, "not found") then 400
    else if Contains(msg, "Access denied") then 403
    else 500
  }

  /** The handler. `readFails` says whether the table read raises. */
  function HandleGet(store: Store, req: GetRequest, readFails: bool): (r: Reply)
    ensures req.httpMethod == Some("OPTIONS") ==> r == Reply(if ListJobs.Allowed(req.origin) then 204 else 403, NoBody)
    ensures req.httpMethod != Some("OPTIONS") && req.httpMethod != Some("GET") ==>
              r == Reply(ErrorCode(ListJobs.MethodError(req.httpMethod)), ErrorBody(ListJobs.MethodError(req.httpMethod)))
    ensures req.httpMethod == Some("GET") ==>
              var caller := UserIdFromToken(req.authorization, req.decoded, true);
              var id := JobIdFromPath(req.pathParameters, req.path);
              r.code == (if caller.None? then 401
                         else if !Present(id) then 400
                         else if Lookup(store, id.value, readFails).None? then 404
                         else if store[id.value].user_id != caller then 403
                         else 200)
    ensures r.code == 200 ==>
              var id := JobIdFromPath(req.pathParameters, req.path).value;
              && id in store
              && store[id].user_id == UserIdFromToken(req.authorization, req.decoded, true)
              && r.body == JobBody(FormatView(store[id]))
  {
    if req.httpMethod == Some("OPTIONS") then Reply(if ListJobs.Allowed(req.origin) then 204 else 403, NoBody)
    else if req.httpMethod != Some("GET") then
      var msg := ListJobs.MethodError(req.httpMethod);
      Reply(ErrorCode(msg), ErrorBody(msg))
    else match UserIdFromToken(req.authorization, req.decoded, true)
      case None => Reply(401, ErrorBody("Unauthorized"))
      case Some(caller) =>
        var id := JobIdFromPath(req.pathParameters, req.path);
        if !Present(id) then Reply(400, ErrorBody("Invalid job ID"))
        else match Lookup(store, id.value, readFails)
          case None => Reply(404, ErrorBody("Job not found"))
          case Some(job) =>
            if job.user_id != Some(caller) then Reply(403, ErrorBody("Access denied"))
            else Reply(200, JobBody(FormatView(job)))
  }

  /** A path of the form `/v1/jobs/{id}` yields that id. */
  lemma PathYieldsId(id: string)
    requires |id| > 0 && '/' !in id
    ensures JobIdFromPath(None, Some("/v1/jobs/" + id)) == Some(id)
  {
    var path := "/v1/jobs/" + id;
    StripJobsPath(id);
    SplitJobsPath(id);
    var parts := Split(Strip(path, {'/'}), '/');
    assert parts == ["v1", "jobs", id];
    assert |parts| >= 3 && parts[0] == "v1" && parts[1] == "jobs" && parts[2] == id;
  }

  lemma StripJobsPath(id: string)
    requires |id| > 0 && '/' !in id
    ensures Strip("/v1/jobs/" + id, {'/'}) == "v1/jobs/" + id
  {
    var inner := "v1/jobs/" + id;
    assert ("/v1/jobs/" + id)[1..] == inner;
    StripLeftKeeps(inner, {'/'});
    assert inner[|inner| - 1] == id[|id| - 1];
    assert id[|id| - 1] in id;
    StripRightKeeps(inner, {'/'});
  }

  lemma SplitJobsPath(id: string)
    requires '/' !in id
    ensures Split("v1/jobs/" + id, '/') == ["v1", "jobs", id]
  {
    var parts := ["v1", "jobs", id];
    assert Join(["jobs", id], '/') == "jobs" + ['/'] + id;
    assert Join(parts, '/') == "v1" + ['/'] + Join(["jobs", id], '/');
    assert Join(parts, '/') == "v1/jobs/" + id;
    SplitJoin(parts, '/');
  }

  /** Only the owner is ever shown a job, and the owner always is once it
      is found: a 403 means someone else's job. */
  lemma OwnerOnly(store: Store, req: GetRequest, readFails: bool)
    requires req.httpMethod == Some("GET")
    requires UserIdFromToken(req.authorization, req.decoded, true).Some?
    requires Present(JobIdFromPath(req.pathParameters, req.path)) && !readFails
    requires JobIdFromPath(req.pathParameters, req.path).value in store
    ensures var j := store[JobIdFromPath(req.pathParameters, req.path).value];
            HandleGet(store, req, readFails).code ==
              if j.user_id == UserIdFromToken(req.authorization, req.decoded, true) then 200 else 403
  {
  }

  /** A failing read is indistinguishable from a missing job. */
  lemma ReadFailureIsNotFound(store: Store, req: GetRequest)
    requires req.httpMethod == Some("GET")
    requires UserIdFromToken(req.authorization, req.decoded, true).Some?
    requires Present(JobIdFromPath(req.pathParameters, req.path))
    ensures HandleGet(store, req, true) == HandleGet(map[], req, false)
    ensures HandleGet(store, req, true).code == 404
  {
  }

  /** A job the list shows its owner can be fetched by that owner, and the
      status response agrees with the list line on every shared field. */
  lemma ListedJobFetches(store: Store, items: seq<Job>, req: GetRequest, j: Job)
    requires ListJobs.ScanOf(store, items) && j in items
    requires req.httpMethod == Some("GET") && req.pathParameters == Some(map["id" := j.jobId]) && j.jobId != ""
    requires UserIdFromToken(req.authorization, req.decoded, true).Some?
    requires j.user_id == UserIdFromToken(req.authorization, req.decoded, true)
    ensures var r := HandleGet(store, req, false);
            && r.code == 200 && r.body.JobBody?
            && r.body.job.jobId == ListJobs.FormatEntry(j).jobId
            && r.body.job.status == ListJobs.FormatEntry(j).status
            && r.body.job.createdAt == ListJobs.FormatEntry(j).createdAt
            && r.body.job.outputUrl == ListJobs.FormatEntry(j).outputUrl
  {
    assert store[j.jobId] == j;
  }
}
