/** Job submission (admin-vanilla/temp-cors-handler/jobs-submit-lambda.py):
    `POST /jobs` validates the body and writes the initial QUEUED item. */
module Submission {

  import opened Wrappers
  import opened Text
  import opened Jobs
  import opened Auth

  /** A JSON value in the request body. A number with a fraction or an
      exponent decodes to a float, `JFloat`, here a finite one; `JOther`
      stands for arrays and objects, which `int()` rejects. */
  datatype Json = JStr(s: string) | JInt(i: int) | JFloat(r: real) | JBool(b: bool) | JNull | JOther

  /** The decoded body object. Each field is `None` when its key is absent. */
  datatype RequestBody = RequestBody(prompt: Option<Json>, seconds: Option<Json>,
                                     resolution: Option<Json>, tier: Option<string>,
                                     feature: Option<Feature>)

  /** The `body` of the invocation: absent (decoded as `"{}"`), present but
      null (Python's `None`), the text `null`, text that is not JSON, or a
      decoded object. */
  datatype BodyArg = NoBody | NullBody | NullText | Unparseable | Parsed(body: RequestBody)

  /** The reasons `validate_job_request` raises. */
  datatype SubmitError =
    | MissingField(field: string)
    | EmptyPrompt
    | PromptTooLong
    | NotAnInteger(text: string)
    | DurationOutOfRange
    | InvalidResolution
    | UnsupportedResolution
    | BadFormat

  /** The validated request: exactly prompt, seconds and resolution, plus
      tier and feature when the body had them. */
  datatype ValidRequest = ValidRequest(prompt: string, seconds: int, resolution: string,
                                       tier: Option<string>, feature: Option<Feature>)

  const MaxPromptLength: nat := 1000
  const MinSeconds: int := 2
  const MaxSeconds: int := 10

  /** Python's `int(v)` on a JSON value: an integer is itself, a float is
      truncated toward zero, a boolean is 0 or 1, a string is parsed; null
      and the uninterpreted kinds raise. */
  function ToInt(v: Json): Result<int, SubmitError> {
    match v
    case JInt(i) => Success(i)
    case JFloat(r) => Success(Trunc(r))
    case JBool(b) => Success(if b then 1 else 0)
    case JStr(s) =>
      (match ParseInt(s)
       case Some(n) => Success(n)
       case None => Failure(NotAnInteger(s)))
    case JNull => Failure(BadFormat)
    case JOther => Failure(BadFormat)
  }

  /** The first required key the body lacks, in the order the source checks. */
  function FirstMissing(b: RequestBody): Option<string> {
    if b.prompt.None? then Some("prompt")
    else if b.seconds.None? then Some("seconds")
    else if b.resolution.None? then Some("resolution")
    else None
  }

  /** A body the source accepts, stated without following its check order:
      all three keys, a string prompt with a non-whitespace character and at
      most 1000 characters once stripped, seconds converting to 2..10, and
      resolution exactly the string "720p". */
  predicate Acceptable(b: RequestBody) {
    && b.prompt.Some? && PromptOk(b.prompt.value)
    && b.seconds.Some? && SecondsOk(b.seconds.value)
    && b.resolution == Some(JStr("720p"))
  }

  /** A string prompt with a non-whitespace character and at most 1000
      characters once stripped. */
  predicate PromptOk(v: Json) {
    v.JStr? && NonBlank(v.s) && |Strip(v.s, Whitespace)| <= MaxPromptLength
  }

  /** A duration `int()` reads as 2..10. */
  predicate SecondsOk(v: Json) {
    ToInt(v).Success? && MinSeconds <= ToInt(v).value <= MaxSeconds
  }

  /** `s` has a character that is not whitespace. */
  predicate NonBlank(s: string) {
    exists i :: 0 <= i < |s| && s[i] !in Whitespace
  }

  /** The resolutions the source recognises before rejecting all but 720p. */
  predicate KnownResolution(v: Json) {
    v == JStr("720p") || v == JStr("1080p") || v == JStr("4k")
  }

  /** The prompt check: a string with something left once stripped, and
      at most the maximum length. */
  function CheckPrompt(v: Json): (r: Result<string, SubmitError>)
    ensures r.Success? <==> PromptOk(v)
    ensures r.Failure? ==> !r.error.InvalidResolution? && !r.error.UnsupportedResolution?
    ensures r.Success? ==> r.value == Strip(v.s, Whitespace) && 0 < |r.value| <= MaxPromptLength
  {
    if !v.JStr? then Failure(BadFormat)
    else
      var prompt := Strip(v.s, Whitespace);
      NonBlankIffStripped(v.s);
      if prompt == [] then Failure(EmptyPrompt)
      else if |prompt| > MaxPromptLength then Failure(PromptTooLong)
      else Success(prompt)
  }

  /** The duration check: `int()` reads it, within the allowed range. */
  function CheckSeconds(v: Json): (r: Result<int, SubmitError>)
    ensures r.Success? <==> SecondsOk(v)
    ensures r.Failure? ==> !r.error.InvalidResolution? && !r.error.UnsupportedResolution?
    ensures r.Success? ==> r.value == ToInt(v).value
  {
    match ToInt(v)
    case Failure(e) => Failure(e)
    case Success(seconds) =>
      if !(MinSeconds <= seconds <= MaxSeconds) then Failure(DurationOutOfRange) else Success(seconds)
  }

  /** A float duration is read as `int()` truncates it: it passes exactly
      when it lies in [2, 11), and the whole seconds are what is kept. */
  lemma FloatSeconds(r: real)
    ensures SecondsOk(JFloat(r)) <==> 2.0 <= r < 11.0
    ensures CheckSeconds(JFloat(r)).Success? ==> CheckSeconds(JFloat(r)).value == Trunc(r)
  {
  }

  /** The resolution check: a known resolution, and of those only 720p. */
  function CheckResolution(v: Json): (r: Result<string, SubmitError>)
    ensures r.Success? <==> v == JStr("720p")
    ensures r.Success? ==> r.value == "720p"
    ensures (v == JStr("1080p") || v == JStr("4k")) ==> r == Failure(UnsupportedResolution)
    ensures !KnownResolution(v) ==> r == Failure(InvalidResolution)
  {
    if !KnownResolution(v) then Failure(InvalidResolution)
    else if v != JStr("720p") then Failure(UnsupportedResolution)
    else Success("720p")
  }

  function ValidateJobRequest(b: RequestBody): (r: Result<ValidRequest, SubmitError>)
    ensures r.Success? <==> Acceptable(b)
    ensures r.Success? ==>
      && r.value.prompt == Strip(b.prompt.value.s, Whitespace)
      && 0 < |r.value.prompt| <= MaxPromptLength
      && r.value.seconds == ToInt(b.seconds.value).value
      && r.value.resolution == "720p"
      && r.value.tier == b.tier && r.value.feature == b.feature
    ensures FirstMissing(b).Some? ==> r == Failure(MissingField(FirstMissing(b).value))
    ensures FirstMissing(b).None? && (b.resolution.value == JStr("1080p") || b.resolution.value == JStr("4k")) ==>
              r.Failure? && r.error != InvalidResolution
    ensures FirstMissing(b).None? && !KnownResolution(b.resolution.value) ==>
              r.Failure? && r.error != UnsupportedResolution
  {
    if FirstMissing(b).Some? then Failure(MissingField(FirstMissing(b).value))
    else match CheckPrompt(b.prompt.value)
      case Failure(e) => Failure(e)
      case Success(prompt) =>
        match CheckSeconds(b.seconds.value)
        case Failure(e) => Failure(e)
        case Success(seconds) =>
          match CheckResolution(b.resolution.value)
          case Failure(e) => Failure(e)
          case Success(resolution) => Success(ValidRequest(prompt, seconds, resolution, b.tier, b.feature))
  }

  /** A prompt has a non-whitespace character exactly when stripping it
      leaves something. */
  lemma NonBlankIffStripped(s: string)
    ensures NonBlank(s) <==> Strip(s, Whitespace) != []
  {
  }

  /** The item `create_job` writes. `now` is the wall-clock time in ISO form
      and `jobId` the fresh identifier, both supplied by the caller. */
  function CreateJob(userId: string, req: ValidRequest, jobId: string, now: string): (j: Job)
    ensures j.jobId == jobId && j.user_id == Some(userId)
    ensures j.status == Some(QUEUED)
    ensures j.createdAt.Some? && j.createdAt == j.updatedAt
    ensures j.outputUrl.None? && j.error_message.None?
    ensures j.prompt == Some(req.prompt) && j.resolution == Some(req.resolution)
    ensures j.duration_seconds == Some(req.seconds) && j.seconds.None?
    ensures j.tier == req.tier && j.feature == req.feature
    ensures j.userId.None? && j.jobStatus.None? && j.audioStatus.None? && j.combinedUrl.None?
  {
    var stamp := now + "Z";
    Blank(jobId).(user_id := Some(userId), prompt := Some(req.prompt),
                  duration_seconds := Some(req.seconds), resolution := Some(req.resolution),
                  status := Some(QUEUED), createdAt := Some(stamp), updatedAt := Some(stamp),
                  tier := req.tier, feature := req.feature)
  }

  /** The invocation as the handler reads it. `decoded` is the token
      decoder's result on the padded payload segment. */
  datatype SubmitRequest = SubmitRequest(httpMethod: Option<string>, path: Option<string>,
                                         origin: Option<string>, authorization: Option<string>,
                                         decoded: Option<TokenClaims>, body: BodyArg)

  const AllowedOrigins: set<string> :=
    {"https://video.deepfoundai.com", "https://admin.deepfoundai.com", "http://localhost:5173"}

  /** The status code of the handler's last-resort `except`, chosen by words
      in the exception text. */
  function GenericErrorCode(msg: string): (code: int)
    ensures code in {400, 401, 402, 500}
    ensures Contains(msg, "Unauthorized") ==> code == 401
    ensures code == 500 <==>
              !Contains(msg, "Unauthorized") && !Contains(msg, "Insufficient credits") &&
              !Contains(msg, "Invalid") && !Contains(msg, "Missing")
  {
    if Contains(msg, "Unauthorized") then 401
    else if Contains(msg, "Insufficient credits") then 402
    else if Contains(msg, "Invalid") || Contains(msg, "Missing") then 400
    else 500
  }

  /** The submit handler. `put` is the outcome of the table write; the
      credit check in the source always passes and is not modelled. A 201
      means exactly one new item, QUEUED, under `jobId`; every other code
      leaves the table untouched. */
  function Submit(store: Store, req: SubmitRequest, jobId: string, now: string, put: Call): (o: Outcome)
    ensures o.events == []
    ensures o.code != 201 ==> o.store == store
    ensures req.httpMethod != Some("OPTIONS") && req.httpMethod != Some("POST") ==> o.code == 400
    ensures req.httpMethod == Some("POST") && !Present(req.path) && !Present(req.authorization) ==> o.code == 401
    ensures o.code == 201 <==>
      && req.httpMethod == Some("POST")
      && (!Present(req.path) || EndsWith(req.path.value, "/jobs"))
      && UserIdFromToken(req.authorization, req.decoded, true).Some?
      && req.body.Parsed? && Acceptable(req.body.body)
      && put.Ok?
    ensures o.code == 201 ==>
      o.store == store[jobId := CreateJob(UserIdFromToken(req.authorization, req.decoded, true).value,
                                          ValidateJobRequest(req.body.body).value, jobId, now)]
    ensures req.httpMethod == Some("POST") && req.body.NoBody? ==> o.code in {400, 401}
  {
    if req.httpMethod == Some("OPTIONS") then
      Outcome(store, [], if req.origin.Some? && req.origin.value in AllowedOrigins then 204 else 403)
    else if req.httpMethod != Some("POST") then Outcome(store, [], 400)
    else if Present(req.path) && !EndsWith(req.path.value, "/jobs") then Outcome(store, [], 400)
    else match UserIdFromToken(req.authorization, req.decoded, true)
      case None => Outcome(store, [], 401)
      case Some(userId) => SubmitBody(store, userId, req.body, jobId, now, put)
  }

  /** The handler once the caller is known: the body is decoded, validated
      and written. */
  function SubmitBody(store: Store, userId: string, body: BodyArg, jobId: string, now: string, put: Call): (o: Outcome)
    ensures o.events == []
    ensures o.code != 201 ==> o.store == store
    ensures o.code == 201 <==> body.Parsed? && Acceptable(body.body) && put.Ok?
    ensures o.code == 201 ==> o.store == store[jobId := CreateJob(userId, ValidateJobRequest(body.body).value, jobId, now)]
    ensures body.NoBody? ==> o.code == 400
    ensures body.NullBody? ==> o.code == 500
    ensures body.NullText? ==> o.code == 400
  {
    match body
    case NullBody =>
      // `json.loads(None)` raises a TypeError, which only the outer handler
      // catches; its text ("the JSON object must be str, ...") holds none of
      // the words that handler looks for, so the answer is 500.
      Outcome(store, [], 500)
    case NullText =>
      // `json.loads("null")` is `None`; the key test in
      // `validate_job_request` raises a TypeError, which it re-raises as
      // the ValueError "Invalid request format: ...", so the answer is 400.
      Outcome(store, [], 400)
    case Unparseable => Outcome(store, [], 400)
    case NoBody =>
      // A missing body is read as `"{}"`.
      Create(store, userId, EmptyBody(), jobId, now, put)
    case Parsed(b) => Create(store, userId, b, jobId, now, put)
  }

  /** The decoded body validated, and the job written when it passes. */
  function Create(store: Store, userId: string, b: RequestBody, jobId: string, now: string, put: Call): (o: Outcome)
    ensures o.events == []
    ensures o.code != 201 ==> o.store == store
    ensures o.code == 201 <==> Acceptable(b) && put.Ok?
    ensures o.code == 201 ==> o.store == store[jobId := CreateJob(userId, ValidateJobRequest(b).value, jobId, now)]
    ensures !Acceptable(b) ==> o.code == 400
  {
    match ValidateJobRequest(b)
    case Failure(_) => Outcome(store, [], 400)
    case Success(vr) =>
      match put
      case Ok => Outcome(store[jobId := CreateJob(userId, vr, jobId, now)], [], 201)
      case Raise(msg) => Outcome(store, [], GenericErrorCode(msg))
  }

  /** The body `"{}"` decodes to. */
  function EmptyBody(): (b: RequestBody)
    ensures FirstMissing(b) == Some("prompt")
  {
    RequestBody(None, None, None, None, None)
  }
}
