/** The job processor (admin-vanilla/temp-cors-handler/job-processor-lambda.py):
    a scheduled run takes up to twenty QUEUED jobs, marks each PROCESSING
    and publishes a video generation request for it, plus an audio
    generation request when the job asked for audio. A job whose step
    raises is counted as failed and, best effort, marked FAILED. */
module Processor {

  import opened Wrappers
  import opened Jobs
  import opened Tiers

  const BatchLimit: nat := 20
  const SubmitterSource: string := "contentcraft.jobsubmitter"
  const VideoSubmitted: string := "video.job.submitted"
  const AudioSubmitted: string := "audio.job.submitted"
  /** Every audio tier maps to this model in the processor. */
  const AudioModel: string := "fal-ai/stable-audio"
  const FramesPerSecond: int := 24
  const DefaultDurationSeconds: int := 5
  const AudioPromptSuffix: string := ", ambient sounds and sound effects"

  /** The batch of one run: the items of the single scan for `status =
      QUEUED` (`None` when the scan raised), cut to the first twenty. */
  function GetQueuedJobs(scan: Option<seq<Job>>): (batch: seq<Job>)
    ensures scan.None? ==> batch == []
    ensures scan.Some? ==> |batch| == if |scan.value| > BatchLimit then BatchLimit else |scan.value|
    ensures scan.Some? ==> batch == scan.value[..|batch|]
  {
    match scan
    case None => []
    case Some(items) => if |items| > BatchLimit then items[..BatchLimit] else items
  }

  /** The provider model of the job's tier: the job's tier (default `fast`),
      its legacy alias resolved, looked up with the `fast` model as fallback.
      This is the model of the tier the shared validator would choose. */
  function DetermineFalModel(job: Job): (model: string)
    ensures model == ModelTierToFalModel[ValidateAndDefaultTier(job.tier)]
  {
    var tier := job.tier.GetOr(DefaultModelTier);
    var resolved := if tier in LegacyTierMapping then LegacyTierMapping[tier] else tier;
    if resolved in ModelTierToFalModel then ModelTierToFalModel[resolved]
    else ModelTierToFalModel[DefaultModelTier]
  }

  /** `duration_seconds`, else `seconds`, else five. */
  function JobDuration(job: Job): int {
    if job.duration_seconds.Some? then job.duration_seconds.value
    else if job.seconds.Some? then job.seconds.value
    else DefaultDurationSeconds
  }

  /** Frame size per resolution; other resolutions send no size. */
  function FrameSize(resolution: string): (size: Option<(int, int)>)
    ensures size.Some? <==> resolution in {"720p", "1080p", "4k"}
    ensures size.Some? ==> 0 < size.value.1 <= size.value.0 <= 1280 && size.value.1 <= 768
    ensures resolution == "720p" ==> size == Some((768, 512))
    ensures resolution == "1080p" ==> size == Some((1024, 768))
    ensures resolution == "4k" ==> size == Some((1280, 768))
  {
    if resolution == "720p" then Some((768, 512))
    else if resolution == "1080p" then Some((1024, 768))
    else if resolution == "4k" then Some((1280, 768))
    else None
  }

  /** Video generation parameters: the prompt, the duration as frames at
      24 per second, the size of the resolution (720p when the job has
      none), 25 steps and seed 42. */
  function BuildFalParameters(job: Job): (p: Params)
    ensures p.VideoParams? && p.prompt == job.prompt.GetOr("")
    ensures p.num_frames == FramesPerSecond * JobDuration(job)
    ensures p.num_frames % FramesPerSecond == 0
    ensures (p.width.Some? && p.height.Some?) <==> FrameSize(job.resolution.GetOr("720p")).Some?
    ensures p.width.Some? && p.height.Some? ==> (p.width.value, p.height.value) == FrameSize(job.resolution.GetOr("720p")).value
    ensures p.num_inference_steps == 25 && p.seed == 42
  {
    var size := FrameSize(job.resolution.GetOr("720p"));
    VideoParams(job.prompt.GetOr(""), JobDuration(job) * FramesPerSecond,
                if size.Some? then Some(size.value.0) else None,
                if size.Some? then Some(size.value.1) else None,
                25, 42)
  }

  /** Audio generation parameters: the video prompt with a fixed suffix
      and the video's duration in seconds. */
  function BuildAudioParameters(job: Job): (p: Params)
    ensures p.AudioParams? && p.seconds == JobDuration(job)
    ensures |p.prompt| == |job.prompt.GetOr("")| + |AudioPromptSuffix|
    ensures p.prompt[..|job.prompt.GetOr("")|] == job.prompt.GetOr("")
    ensures p.prompt[|job.prompt.GetOr("")|..] == AudioPromptSuffix
  {
    AudioParams(job.prompt.GetOr("") + AudioPromptSuffix, JobDuration(job))
  }

  function VideoEvent(job: Job, now: string): (e: Event)
    ensures e.source == SubmitterSource && e.detailType == VideoSubmitted
    ensures e.detail.jobId == Some(job.jobId) && e.detail.userId == Some(job.user_id.GetOr("unknown"))
    ensures e.detail.provider == Some("fal") && e.detail.model == Some(DetermineFalModel(job))
    ensures e.detail.parameters == Some(BuildFalParameters(job))
  {
    Event(SubmitterSource, VideoSubmitted,
          EmptyDetail().(jobId := Some(job.jobId), userId := Some(job.user_id.GetOr("unknown")),
                         provider := Some("fal"), model := Some(DetermineFalModel(job)),
                         parameters := Some(BuildFalParameters(job)), timestamp := Some(now)))
  }

  function AudioEvent(job: Job, now: string): (e: Event)
    ensures e.source == SubmitterSource && e.detailType == AudioSubmitted
    ensures e.detail.jobId == Some(job.jobId) && e.detail.userId == Some(job.user_id.GetOr("unknown"))
    ensures e.detail.provider == Some("fal") && e.detail.model == Some(AudioModel)
    ensures e.detail.parameters == Some(BuildAudioParameters(job))
  {
    Event(SubmitterSource, AudioSubmitted,
          EmptyDetail().(jobId := Some(job.jobId), userId := Some(job.user_id.GetOr("unknown")),
                         provider := Some("fal"), model := Some(AudioModel),
                         parameters := Some(BuildAudioParameters(job)), timestamp := Some(now)))
  }

  /** The requests a job produces when nothing fails: video first, then
      audio when the job asked for it. */
  function JobEvents(job: Job, now: string): seq<Event> {
    [VideoEvent(job, now)] + (if WantsAudio(job) then [AudioEvent(job, now)] else [])
  }

  /** What the outside world does to the calls made for one job: the
      PROCESSING write, the two publishes, and the FAILED write of the
      error path. */
  datatype JobFault = JobFault(markProcessing: Call, videoPublish: Call, audioPublish: Call,
                               markFailed: Call)

  const NoFault: JobFault := JobFault(Ok, Ok, Ok, Ok)

  /** The fault of the `i`-th job of the batch; jobs past the list meet none. */
  function FaultAt(faults: seq<JobFault>, i: nat): JobFault {
    if i < |faults| then faults[i] else NoFault
  }

  /** The running state of one run. */
  datatype Drain = Drain(store: Store, events: seq<Event>, processed: nat, failed: nat)

  /** The error path: one more failure, and the best-effort FAILED write,
      which records the exception text only when it is non-empty. */
  function FailJob(d: Drain, id: string, msg: string, write: Call, now: string): (r: Drain)
    ensures r.events == d.events && r.processed == d.processed && r.failed == d.failed + 1
    ensures write.Ok? ==> id in r.store && r.store[id].status == Some(FAILED)
    ensures write.Ok? && msg != "" ==> r.store[id].error_message == Some(msg)
    ensures write.Raise? ==> r.store == d.store
    ensures forall k :: k != id ==> (k in r.store <==> k in d.store)
    ensures forall k :: k in d.store && k != id ==> r.store[k] == d.store[k]
  {
    var prior := Stored(d.store, id);
    var failedJob := prior.(status := Some(FAILED), updatedAt := Some(now),
                          error_message := if msg != "" then Some(msg) else prior.error_message);
    d.(store := Attempt(d.store, id, failedJob, write), failed := d.failed + 1)
  }

  /** `e` is one of the requests `job` can produce. */
  predicate FromJob(e: Event, job: Job, now: string) {
    e == VideoEvent(job, now) || (WantsAudio(job) && e == AudioEvent(job, now))
  }

  /** One iteration of the handler's loop: the job is counted once, only its
      key is written, and at most its two requests are published, after
      what was there. With no fault it ends PROCESSING with both requests
      out. */
  function ProcessJob(d: Drain, job: Job, f: JobFault, now: string): (r: Drain)
    ensures r.processed + r.failed == d.processed + d.failed + 1
    ensures d.events <= r.events && |r.events| <= |d.events| + 2
    ensures forall i :: |d.events| <= i < |r.events| ==> FromJob(r.events[i], job, now)
    ensures forall k :: k != job.jobId ==> (k in r.store <==> k in d.store)
    ensures forall k :: k in d.store && k != job.jobId ==> r.store[k] == d.store[k]
    ensures f == NoFault ==> job.jobId in r.store && r.store[job.jobId].status == Some(PROCESSING)
    ensures f == NoFault ==>
              r == Drain(d.store[job.jobId := Stored(d.store, job.jobId).(status := Some(PROCESSING),
                                                                           updatedAt := Some(now))],
                         d.events + JobEvents(job, now), d.processed + 1, d.failed)
  {
    var id := job.jobId;
    if f.markProcessing.Raise? then FailJob(d, id, f.markProcessing.msg, f.markFailed, now)
    else
      var marked := d.(store := d.store[id := Stored(d.store, id).(status := Some(PROCESSING),
                                                                     updatedAt := Some(now))]);
      if f.videoPublish.Raise? then FailJob(marked, id, f.videoPublish.msg, f.markFailed, now)
      else
        var sent := marked.(events := marked.events + [VideoEvent(job, now)]);
        if !WantsAudio(job) then sent.(processed := sent.processed + 1)
        else if f.audioPublish.Raise? then FailJob(sent, id, f.audioPublish.msg, f.markFailed, now)
        else sent.(events := sent.events + [AudioEvent(job, now)], processed := sent.processed + 1)
  }

  /** `id` is the key of one of the jobs. */
  predicate HasId(batch: seq<Job>, id: string) {
    exists i :: 0 <= i < |batch| && batch[i].jobId == id
  }

  /** `e` is a request of one of the jobs. */
  predicate FromBatch(e: Event, batch: seq<Job>, now: string) {
    exists j :: 0 <= j < |batch| && FromJob(e, batch[j], now)
  }

  /** The run over `batch`, job by job from `start`: every job is counted
      once, as processed or as failed, and requests are only appended. */
  function DrainSpec(start: Drain, batch: seq<Job>, faults: seq<JobFault>, now: string): (d: Drain)
    ensures d.processed + d.failed == start.processed + start.failed + |batch|
    ensures start.events <= d.events && |d.events| <= |start.events| + 2 * |batch|
    decreases |batch|
  {
    if |batch| == 0 then start
    else
      var n := |batch| - 1;
      ProcessJob(DrainSpec(start, batch[..n], faults, now), batch[n], FaultAt(faults, n), now)
  }

  /** One step of the run, unfolded. */
  lemma DrainStep(start: Drain, batch: seq<Job>, faults: seq<JobFault>, now: string)
    requires |batch| > 0
    ensures DrainSpec(start, batch, faults, now) ==
            ProcessJob(DrainSpec(start, batch[..|batch| - 1], faults, now), batch[|batch| - 1],
                       FaultAt(faults, |batch| - 1), now)
  {
  }

  /** `after` agrees with `before` on every key that is not a job of
      `batch`. */
  ghost predicate KeepsOutside(before: Store, after: Store, batch: seq<Job>) {
    && (forall k :: !HasId(batch, k) ==> (k in after <==> k in before))
    && (forall k :: k in before && !HasId(batch, k) ==> after[k] == before[k])
  }

  /** A key of the first jobs, or of the last one, is a key of the batch. */
  lemma HasIdSnoc(batch: seq<Job>, k: string)
    requires |batch| > 0
    ensures HasId(batch, k) <==> HasId(batch[..|batch| - 1], k) || batch[|batch| - 1].jobId == k
  {
    var n := |batch| - 1;
    if HasId(batch[..n], k) {
      var j :| 0 <= j < n && batch[..n][j].jobId == k;
      assert batch[j].jobId == k;
    }
    if HasId(batch, k) && batch[n].jobId != k {
      var j :| 0 <= j < |batch| && batch[j].jobId == k;
      assert batch[..n][j].jobId == k;
    }
  }

  /** A run writes only the keys of its jobs. */
  lemma {:induction false} DrainFrame(start: Drain, batch: seq<Job>, faults: seq<JobFault>, now: string)
    ensures KeepsOutside(start.store, DrainSpec(start, batch, faults, now).store, batch)
    decreases |batch|
  {
    if |batch| > 0 {
      var n := |batch| - 1;
      DrainFrame(start, batch[..n], faults, now);
      DrainStep(start, batch, faults, now);
      var before := DrainSpec(start, batch[..n], faults, now).store;
      var after := DrainSpec(start, batch, faults, now).store;
      forall k | !HasId(batch, k)
        ensures (k in after <==> k in start.store)
        ensures k in start.store ==> after[k] == start.store[k]
      {
        HasIdSnoc(batch, k);
      }
    }
  }

  /** Every request a run publishes is a submitted-video or submitted-audio
      request of one of its jobs, and an audio request only for a job that
      asked for audio. */
  lemma {:induction false} DrainEventsFromBatch(start: Drain, batch: seq<Job>, faults: seq<JobFault>,
                                                now: string)
    ensures var d := DrainSpec(start, batch, faults, now);
            forall i :: |start.events| <= i < |d.events| ==> FromBatch(d.events[i], batch, now)
    decreases |batch|
  {
    if |batch| > 0 {
      var n := |batch| - 1;
      DrainEventsFromBatch(start, batch[..n], faults, now);
      DrainStep(start, batch, faults, now);
      EventsStep(start.events, DrainSpec(start, batch[..n], faults, now).events,
                 DrainSpec(start, batch, faults, now).events, batch, now);
    }
  }

  /** One more job's requests come from the batch, as the earlier ones
      did. */
  lemma EventsStep(first: seq<Event>, before: seq<Event>, after: seq<Event>, batch: seq<Job>, now: string)
    requires |batch| > 0 && |first| <= |before| && before <= after
    requires forall i :: |first| <= i < |before| ==> FromBatch(before[i], batch[..|batch| - 1], now)
    requires forall i :: |before| <= i < |after| ==> FromJob(after[i], batch[|batch| - 1], now)
    ensures forall i :: |first| <= i < |after| ==> FromBatch(after[i], batch, now)
  {
    var n := |batch| - 1;
    forall i | |first| <= i < |after| ensures FromBatch(after[i], batch, now) {
      if i < |before| {
        assert after[i] == before[i];
        FromPrefix(before[i], batch, now);
      } else {
        FromLast(after[i], batch, now);
      }
    }
  }

  lemma FromPrefix(e: Event, batch: seq<Job>, now: string)
    requires |batch| > 0 && FromBatch(e, batch[..|batch| - 1], now)
    ensures FromBatch(e, batch, now)
  {
    var n := |batch| - 1;
    var j :| 0 <= j < n && FromJob(e, batch[..n][j], now);
    assert batch[..n][j] == batch[j];
  }

  lemma FromLast(e: Event, batch: seq<Job>, now: string)
    requires |batch| > 0 && FromJob(e, batch[|batch| - 1], now)
    ensures FromBatch(e, batch, now)
  {
  }

  /** The handler's loop, job by job; it computes the run `DrainSpec`
      describes and counts every job exactly once. */
  method DrainQueue(store: Store, batch: seq<Job>, faults: seq<JobFault>, now: string)
    returns (d: Drain)
    ensures d == DrainSpec(Drain(store, [], 0, 0), batch, faults, now)
    ensures d.processed + d.failed == |batch|
  {
    d := Drain(store, [], 0, 0);
    var i := 0;
    while i < |batch|
      invariant 0 <= i <= |batch|
      invariant d == DrainSpec(Drain(store, [], 0, 0), batch[..i], faults, now)
    {
      assert batch[..i + 1][..i] == batch[..i];
      d := ProcessJob(d, batch[i], FaultAt(faults, i), now);
      i := i + 1;
    }
    assert batch[..i] == batch;
  }

  /** The result of one run: the table and bus afterwards, and the counts
      the response body reports. */
  datatype RunResult = RunResult(outcome: Outcome, processed: nat, failed: nat, found: nat)

  /** The scheduled handler. An empty batch (including a failed scan)
      changes nothing; otherwise every job of the batch is attempted and
      the answer is 200 whatever failed. */
  function ProcessQueued(store: Store, scan: Option<seq<Job>>, faults: seq<JobFault>, now: string)
    : (r: RunResult)
    ensures r.outcome.code == 200
    ensures r.found == |GetQueuedJobs(scan)| <= BatchLimit
    ensures r.processed + r.failed == r.found
    ensures r.found == 0 ==> r.outcome.store == store && r.outcome.events == []
    ensures KeepsOutside(store, r.outcome.store, GetQueuedJobs(scan))
  {
    var batch := GetQueuedJobs(scan);
    if batch == [] then RunResult(Outcome(store, [], 200), 0, 0, 0)
    else
      var d := DrainSpec(Drain(store, [], 0, 0), batch, faults, now);
      DrainFrame(Drain(store, [], 0, 0), batch, faults, now);
      RunResult(Outcome(d.store, d.events, 200), d.processed, d.failed, |batch|)
  }

  /** All requests of a batch when nothing fails, in batch order. */
  function AllJobEvents(batch: seq<Job>, now: string): seq<Event>
    decreases |batch|
  {
    if |batch| == 0 then [] else AllJobEvents(batch[..|batch| - 1], now) + JobEvents(batch[|batch| - 1], now)
  }

  /** With no fault anywhere, every job is processed and the bus receives
      each job's requests in batch order, audio right after its video. */
  lemma {:induction false} FaultFreeRunEvents(store: Store, batch: seq<Job>, now: string)
    ensures var d := DrainSpec(Drain(store, [], 0, 0), batch, [], now);
            d.failed == 0 && d.processed == |batch| && d.events == AllJobEvents(batch, now)
    decreases |batch|
  {
    if |batch| > 0 {
      var n := |batch| - 1;
      FaultFreeRunEvents(store, batch[..n], now);
      var before := DrainSpec(Drain(store, [], 0, 0), batch[..n], [], now);
      assert FaultAt([], n) == NoFault;
      DrainStep(Drain(store, [], 0, 0), batch, [], now);
      var d := ProcessJob(before, batch[n], NoFault, now);
      assert d.events == before.events + JobEvents(batch[n], now);
    }
  }

  /** A fault-free job leaves every PROCESSING item PROCESSING. */
  lemma ProcessJobKeepsProcessing(d: Drain, job: Job, now: string, k: string)
    requires k in d.store && d.store[k].status == Some(PROCESSING)
    ensures var r := ProcessJob(d, job, NoFault, now);
            k in r.store && r.store[k].status == Some(PROCESSING)
  {
  }

  /** Every job of `batch` is PROCESSING in `store`. */
  ghost predicate AllProcessing(store: Store, batch: seq<Job>) {
    forall i :: 0 <= i < |batch| ==>
      batch[i].jobId in store && store[batch[i].jobId].status == Some(PROCESSING)
  }

  /** With no fault anywhere, every job of the batch ends PROCESSING. */
  lemma {:induction false} FaultFreeRunStatus(store: Store, batch: seq<Job>, now: string)
    ensures AllProcessing(DrainSpec(Drain(store, [], 0, 0), batch, [], now).store, batch)
    decreases |batch|
  {
    if |batch| > 0 {
      var n := |batch| - 1;
      FaultFreeRunStatus(store, batch[..n], now);
      assert FaultAt([], n) == NoFault;
      DrainStep(Drain(store, [], 0, 0), batch, [], now);
      AllProcessingStep(DrainSpec(Drain(store, [], 0, 0), batch[..n], [], now), batch, now);
    }
  }

  /** One more fault-free job keeps every earlier job PROCESSING and makes
      itself PROCESSING. */
  lemma AllProcessingStep(before: Drain, batch: seq<Job>, now: string)
    requires |batch| > 0 && AllProcessing(before.store, batch[..|batch| - 1])
    ensures AllProcessing(ProcessJob(before, batch[|batch| - 1], NoFault, now).store, batch)
  {
    var n := |batch| - 1;
    var d := ProcessJob(before, batch[n], NoFault, now);
    forall i | 0 <= i < n
      ensures batch[i].jobId in d.store && d.store[batch[i].jobId].status == Some(PROCESSING)
    {
      assert batch[..n][i] == batch[i];
      ProcessJobKeepsProcessing(before, batch[n], now, batch[i].jobId);
    }
  }

  /** Jobs are isolated from each other's faults: a job whose own calls all
      succeed, and whose key no later job of the batch shares, ends
      PROCESSING with its requests on the bus right after those of the jobs
      before it, whatever the other jobs met. */
  lemma {:induction false} IsolatedJob(start: Drain, batch: seq<Job>, faults: seq<JobFault>, now: string, i: nat)
    requires i < |batch| && FaultAt(faults, i) == NoFault
    requires forall j :: i < j < |batch| ==> batch[j].jobId != batch[i].jobId
    ensures var d := DrainSpec(start, batch, faults, now);
            && batch[i].jobId in d.store && d.store[batch[i].jobId].status == Some(PROCESSING)
            && DrainSpec(start, batch[..i], faults, now).events + JobEvents(batch[i], now) <= d.events
  {
    var published := DrainSpec(start, batch[..i], faults, now).events + JobEvents(batch[i], now);
    assert batch[..i + 1][..i] == batch[..i];
    IsolatedLast(start, batch[..i + 1], faults, now);
    KeepsFrom(start, batch, faults, now, batch[i].jobId, published, i + 1);
  }

  /** Item `k` is PROCESSING in `d` and `published` already went out. */
  predicate Kept(d: Drain, k: string, published: seq<Event>)
  {
    k in d.store && d.store[k].status == Some(PROCESSING) && published <= d.events
  }

  /** The jobs from the `m`-th on, none under key `k`, keep `k` PROCESSING
      and the requests already published. */
  lemma {:induction false} KeepsFrom(start: Drain, batch: seq<Job>, faults: seq<JobFault>, now: string, k: string,
                                     published: seq<Event>, m: nat)
    requires m <= |batch|
    requires forall j :: m <= j < |batch| ==> batch[j].jobId != k
    requires Kept(DrainSpec(start, batch[..m], faults, now), k, published)
    ensures Kept(DrainSpec(start, batch, faults, now), k, published)
    decreases |batch| - m
  {
    if m < |batch| {
      LaterJobKeeps(start, batch, faults, now, k, published, m);
      KeepsFrom(start, batch, faults, now, k, published, m + 1);
    } else {
      assert batch[..m] == batch;
    }
  }

  /** The last job of a run, fault-free, ends PROCESSING with its requests
      appended. */
  lemma IsolatedLast(start: Drain, batch: seq<Job>, faults: seq<JobFault>, now: string)
    requires |batch| > 0 && FaultAt(faults, |batch| - 1) == NoFault
    ensures var d := DrainSpec(start, batch, faults, now);
            var job := batch[|batch| - 1];
            && job.jobId in d.store && d.store[job.jobId].status == Some(PROCESSING)
            && d.events == DrainSpec(start, batch[..|batch| - 1], faults, now).events + JobEvents(job, now)
  {
    var n := |batch| - 1;
    DrainStep(start, batch, faults, now);
    OwnJobSends(DrainSpec(start, batch[..n], faults, now), batch[n], now);
  }

  /** The `m`-th job, under another key, keeps an item PROCESSING and the
      requests already published. */
  lemma LaterJobKeeps(start: Drain, batch: seq<Job>, faults: seq<JobFault>, now: string, k: string,
                      published: seq<Event>, m: nat)
    requires m < |batch| && batch[m].jobId != k
    requires Kept(DrainSpec(start, batch[..m], faults, now), k, published)
    ensures Kept(DrainSpec(start, batch[..m + 1], faults, now), k, published)
  {
    var pre := batch[..m + 1];
    assert pre[..m] == batch[..m];
    DrainStep(start, pre, faults, now);
    OtherJobKeeps(DrainSpec(start, batch[..m], faults, now), batch[m], FaultAt(faults, m), now, k, published);
  }

  /** A fault-free iteration marks its job PROCESSING and appends its
      requests. */
  lemma OwnJobSends(d: Drain, job: Job, now: string)
    ensures var r := ProcessJob(d, job, NoFault, now);
            job.jobId in r.store && r.store[job.jobId].status == Some(PROCESSING)
            && r.events == d.events + JobEvents(job, now)
  {
  }

  /** Another job's iteration leaves a PROCESSING item PROCESSING and the
      requests already published in place. */
  lemma OtherJobKeeps(d: Drain, job: Job, f: JobFault, now: string, k: string, published: seq<Event>)
    requires k != job.jobId && k in d.store && d.store[k].status == Some(PROCESSING) && published <= d.events
    ensures var r := ProcessJob(d, job, f, now);
            k in r.store && r.store[k].status == Some(PROCESSING) && published <= r.events
  {
  }

  /** The audio publish failing after the video publish succeeded: the run
      counts the job as failed and marks it FAILED, although its video
      request is already on the bus. */
  lemma AudioPublishFailureAfterVideo(store: Store, job: Job, msg: string, now: string)
    requires WantsAudio(job) && msg != ""
    ensures var r := ProcessQueued(store, Some([job]), [JobFault(Ok, Ok, Raise(msg), Ok)], now);
            && r.processed == 0 && r.failed == 1
            && r.outcome.events == [VideoEvent(job, now)]
            && r.outcome.store[job.jobId].status == Some(FAILED)
            && r.outcome.store[job.jobId].error_message == Some(msg)
  {
    assert [job][..0] == [];
  }
}
