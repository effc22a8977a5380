/** The ffmpeg combiner (admin-vanilla/temp-cors-handler/video-audio-combiner-ffmpeg.py):
    on `video.audio.ready` it marks the combination COMBINING, muxes the two
    tracks, records the combined URL with the job COMPLETED and publishes
    `combined.video.ready`. On any failure it records the combination as
    FAILED and still completes the job with separate tracks. This is the
    combiner the end-to-end model uses. */
module CombinerFfmpeg {

  import opened Wrappers
  import opened Jobs
  import opened Combining

  const COMBINING: string := "COMBINING"

  /** The public URL of the combined file of job `id`. */
  function CombinedUrl(id: string): string {
    CloudFrontDomain + "/videos/" + id + "/combined.mp4"
  }

  /** Distinct jobs get distinct combined files. */
  lemma CombinedUrlInjective(a: string, b: string)
    requires CombinedUrl(a) == CombinedUrl(b)
    ensures a == b
  {
    AffixInjective(CloudFrontDomain + "/videos/", a, b, "/combined.mp4");
  }

  /** The outcomes of the calls the handler makes, in order: the COMBINING
      write, the download-mux-upload step, the completion write, the ready
      publish, and in the error path the FAILED write, the separate-tracks
      write and the separate-tracks publish. */
  datatype FfmpegCalls = FfmpegCalls(markCombining: Call, combine: Call, record: Call, publishReady: Call,
                                     markFailed: Call, markSeparate: Call, publishSeparate: Call)

  /** The video URL to combine: the event's, else the stored job's
      `outputUrl`. `Failure` carries the early answer: 404 when the job is
      missing, 400 when it has no video URL. */
  function ResolveVideoUrl(store: Store, id: string, d: Detail): (r: Result<string, int>)
    ensures Present(d.videoUrl) ==> r == Success(d.videoUrl.value)
    ensures !Present(d.videoUrl) && id !in store ==> r == Failure(404)
    ensures !Present(d.videoUrl) && id in store && Present(store[id].outputUrl) ==>
              r == Success(store[id].outputUrl.value)
    ensures !Present(d.videoUrl) && id in store && !Present(store[id].outputUrl) ==> r == Failure(400)
    ensures r.Success? ==> r.value != ""
    ensures r.Failure? ==> r.error in {400, 404}
  {
    if Present(d.videoUrl) then Success(d.videoUrl.value)
    else if id !in store then Failure(404)
    else if Present(store[id].outputUrl) then Success(store[id].outputUrl.value)
    else Failure(400)
  }

  /** The `except` branch: a best-effort FAILED combination with its error
      text, then, together and best effort, the job COMPLETED with separate
      tracks and the separate-tracks publish. The answer is 500. */
  function Fallback(store: Store, id: string, userId: string, video: string, audio: string, msg: string,
                    c: FfmpegCalls, now: string): (o: Outcome)
    ensures o.code == 500
    ensures c.markFailed.Ok? ==> id in o.store && o.store[id].combinationStatus == Some(FAILED)
    ensures c.markSeparate.Ok? ==> id in o.store && o.store[id].status == Some(COMPLETED)
                                   && o.store[id].hasSeparateTracks == Some(true)
    ensures o.events == if c.markSeparate.Ok? && c.publishSeparate.Ok?
                        then [SeparateEvent(id, userId, video, audio, Some(msg), now)] else []
    ensures forall k :: k in o.store ==> k in store || k == id
    ensures forall k :: k in store ==> k in o.store
    ensures forall k :: k in o.store && k != id ==> o.store[k] == store[k]
    ensures id in o.store ==>
              o.store[id].status in {Stored(store, id).status, Some(COMPLETED)}
              && o.store[id].combinedUrl == Stored(store, id).combinedUrl
  {
    var failed := Attempt(store, id, Stored(store, id).(combinationStatus := Some(FAILED),
                                                       combinationError := Some(msg)), c.markFailed);
    if c.markSeparate.Raise? then Outcome(failed, [], 500)
    else
      var separate := failed[id := Stored(failed, id).(status := Some(COMPLETED), hasSeparateTracks := Some(true),
                                                       completedAt := Some(now + "Z"))];
      Outcome(separate, Publish([], SeparateEvent(id, userId, video, audio, Some(msg), now), c.publishSeparate), 500)
  }

  /** Whether every step of the happy path succeeds. */
  predicate AllSucceed(c: FfmpegCalls) {
    c.markCombining.Ok? && c.combine.Ok? && c.record.Ok? && c.publishReady.Ok?
  }

  /** The handler. Without a job id, user id or audio URL it answers 400;
      without a video URL it answers as `ResolveVideoUrl` says; both without
      writing. Otherwise it answers 200 exactly when every step succeeds,
      with the job COMPLETED, the combined URL of the job recorded and one
      ready event; and 500 otherwise. It never sets the job FAILED and only
      writes the event's job. */
  function HandleFfmpeg(store: Store, d: Detail, c: FfmpegCalls, now: string): (o: Outcome)
    ensures !Present(d.jobId) || !Present(d.userId) || !Present(d.audioUrl) ==> o == Outcome(store, [], 400)
    ensures Present(d.jobId) && Present(d.userId) && Present(d.audioUrl)
            && ResolveVideoUrl(store, d.jobId.value, d).Failure? ==>
              o == Outcome(store, [], ResolveVideoUrl(store, d.jobId.value, d).error)
    ensures o.code in {200, 400, 404, 500}
    ensures o.code == 200 <==>
              Present(d.jobId) && Present(d.userId) && Present(d.audioUrl)
              && ResolveVideoUrl(store, d.jobId.value, d).Success? && AllSucceed(c)
    ensures o.code == 200 ==>
              var id := d.jobId.value;
              && id in o.store && o.store[id].status == Some(COMPLETED)
              && o.store[id].combinedUrl == Some(CombinedUrl(id))
              && o.store[id].combinationStatus == Some(COMPLETED)
              && o.events == [CombinedReadyEvent(id, d.userId.value, CombinedUrl(id),
                                                 ResolveVideoUrl(store, id, d).value, d.audioUrl.value, now)]
    ensures o.code == 500 ==>
              var id := d.jobId.value;
              && (c.markFailed.Ok? ==> id in o.store && o.store[id].combinationStatus == Some(FAILED))
              && (c.markSeparate.Ok? ==> id in o.store && o.store[id].status == Some(COMPLETED)
                                         && o.store[id].hasSeparateTracks == Some(true))
              && o.events == if c.markSeparate.Ok? && c.publishSeparate.Ok?
                             then [SeparateEvent(id, d.userId.value, ResolveVideoUrl(store, id, d).value,
                                                 d.audioUrl.value, Some(FailureMessage(c)), now)]
                             else []
    ensures forall k :: k in o.store && Some(k) != d.jobId ==> k in store && o.store[k] == store[k]
    ensures forall k :: k in o.store ==> o.store[k].status in {Stored(store, k).status, Some(COMPLETED)}
  {
    if !Present(d.jobId) || !Present(d.userId) || !Present(d.audioUrl) then Outcome(store, [], 400)
    else
      var id := d.jobId.value;
      var userId := d.userId.value;
      var audio := d.audioUrl.value;
      match ResolveVideoUrl(store, id, d)
      case Failure(code) => Outcome(store, [], code)
      case Success(video) => Combine(store, id, userId, video, audio, c, now)
  }

  /** The text of the exception the `except` branch catches: that of the
      first call that raised. */
  function FailureMessage(c: FfmpegCalls): string
    requires !AllSucceed(c)
  {
    if c.markCombining.Raise? then c.markCombining.msg
    else if c.combine.Raise? then c.combine.msg
    else if c.record.Raise? then c.record.msg
    else c.publishReady.msg
  }

  /** The handler once the event is accepted and the video located: mark
      COMBINING, mux, record the job COMPLETED with the combined URL and
      publish the ready event, falling back on any failure. */
  function Combine(store: Store, id: string, userId: string, video: string, audio: string, c: FfmpegCalls,
                   now: string): (o: Outcome)
    ensures o.code in {200, 500}
    ensures o.code == 200 <==> AllSucceed(c)
    ensures o.code == 200 ==>
              && id in o.store && o.store[id].status == Some(COMPLETED)
              && o.store[id].combinedUrl == Some(CombinedUrl(id))
              && o.store[id].combinationStatus == Some(COMPLETED)
              && o.events == [CombinedReadyEvent(id, userId, CombinedUrl(id), video, audio, now)]
    ensures o.code == 500 ==>
              && (c.markFailed.Ok? ==> id in o.store && o.store[id].combinationStatus == Some(FAILED))
              && (c.markSeparate.Ok? ==> id in o.store && o.store[id].status == Some(COMPLETED)
                                         && o.store[id].hasSeparateTracks == Some(true))
              && o.events == if c.markSeparate.Ok? && c.publishSeparate.Ok?
                             then [SeparateEvent(id, userId, video, audio, Some(FailureMessage(c)), now)] else []
    ensures forall k :: k in o.store && k != id ==> k in store && o.store[k] == store[k]
    ensures forall k :: k in o.store ==> o.store[k].status in {Stored(store, k).status, Some(COMPLETED)}
  {
    if c.markCombining.Raise? then Fallback(store, id, userId, video, audio, c.markCombining.msg, c, now)
    else Mux(store[id := Stored(store, id).(combinationStatus := Some(COMBINING))], id, userId, video, audio, c, now)
  }

  /** The steps after the COMBINING write: mux and upload, record, publish. */
  function Mux(store: Store, id: string, userId: string, video: string, audio: string, c: FfmpegCalls,
               now: string): (o: Outcome)
    requires c.markCombining.Ok?
    ensures o.code in {200, 500}
    ensures o.code == 200 <==> AllSucceed(c)
    ensures o.code == 200 ==>
              && id in o.store && o.store[id].status == Some(COMPLETED)
              && o.store[id].combinedUrl == Some(CombinedUrl(id))
              && o.store[id].combinationStatus == Some(COMPLETED)
              && o.events == [CombinedReadyEvent(id, userId, CombinedUrl(id), video, audio, now)]
    ensures o.code == 500 ==>
              && (c.markFailed.Ok? ==> id in o.store && o.store[id].combinationStatus == Some(FAILED))
              && (c.markSeparate.Ok? ==> id in o.store && o.store[id].status == Some(COMPLETED)
                                         && o.store[id].hasSeparateTracks == Some(true))
              && o.events == if c.markSeparate.Ok? && c.publishSeparate.Ok?
                             then [SeparateEvent(id, userId, video, audio, Some(FailureMessage(c)), now)] else []
    ensures forall k :: k in o.store && k != id ==> k in store && o.store[k] == store[k]
    ensures forall k :: k in o.store ==> o.store[k].status in {Stored(store, k).status, Some(COMPLETED)}
  {
    if c.combine.Raise? then Fallback(store, id, userId, video, audio, c.combine.msg, c, now)
    else if c.record.Raise? then Fallback(store, id, userId, video, audio, c.record.msg, c, now)
    else
      var url := CombinedUrl(id);
      var done := store[id := Stored(store, id).(status := Some(COMPLETED), combinedUrl := Some(url),
                                                 combinationStatus := Some(COMPLETED),
                                                 completedAt := Some(now + "Z"))];
      if c.publishReady.Raise? then Fallback(done, id, userId, video, audio, c.publishReady.msg, c, now)
      else Outcome(done, [CombinedReadyEvent(id, userId, url, video, audio, now)], 200)
  }

  /** Once the event is accepted and the two error-path writes succeed, the
      job ends COMPLETED and the combination is never left COMBINING, so a
      repeated delivery also ends in a terminal state. */
  lemma FfmpegTerminal(store: Store, d: Detail, c: FfmpegCalls, now: string)
    requires Present(d.jobId) && Present(d.userId) && Present(d.audioUrl)
    requires ResolveVideoUrl(store, d.jobId.value, d).Success?
    requires c.markFailed.Ok? && c.markSeparate.Ok?
    ensures var o := HandleFfmpeg(store, d, c, now);
            && d.jobId.value in o.store
            && o.store[d.jobId.value].status == Some(COMPLETED)
            && o.store[d.jobId.value].combinationStatus in {Some(COMPLETED), Some(FAILED)}
  {
  }

  /** The ready publish raising after the completion write: the item keeps
      the combined URL, yet its combination is recorded FAILED and a
      separate-tracks event follows. */
  lemma ReadyPublishFailure(store: Store, d: Detail, c: FfmpegCalls, now: string)
    requires Present(d.jobId) && Present(d.userId) && Present(d.audioUrl) && Present(d.videoUrl)
    requires c.markCombining.Ok? && c.combine.Ok? && c.record.Ok? && c.publishReady.Raise?
    requires c.markFailed.Ok? && c.markSeparate.Ok? && c.publishSeparate.Ok?
    ensures var o := HandleFfmpeg(store, d, c, now);
            var id := d.jobId.value;
            && o.code == 500 && id in o.store
            && o.store[id].combinedUrl == Some(CombinedUrl(id))
            && o.store[id].combinationStatus == Some(FAILED)
            && o.store[id].hasSeparateTracks == Some(true)
            && |o.events| == 1 && o.events[0].detailType == SeparateTracksType
  {
  }
}
