/** The orchestrator (admin-vanilla/temp-cors-handler/job-orchestrator-lambda.py):
    on each `video.rendered` or `audio.rendered` event it reads the job and,
    once both halves are known to be done, publishes `video.audio.ready`.
    A video-only job is completed here on `video.rendered`. */
module Orchestrator {

  import opened Wrappers
  import opened Jobs

  const OrchestratorSource: string := "contentcraft.orchestrator"
  const VideoRendered: string := "video.rendered"
  const AudioRendered: string := "audio.rendered"
  const VideoAudioReady: string := "video.audio.ready"

  /** The request for the combiner. The URLs are passed on as found, which
      may be none. */
  function ReadyEvent(id: string, userId: Option<string>, videoUrl: Option<string>,
                      audioUrl: Option<string>, now: string): (e: Event)
    ensures e.source == OrchestratorSource && e.detailType == VideoAudioReady
    ensures e.detail.jobId == Some(id) && e.detail.userId == userId
    ensures e.detail.videoUrl == videoUrl && e.detail.audioUrl == audioUrl
  {
    Event(OrchestratorSource, VideoAudioReady,
          EmptyDetail().(jobId := Some(id), userId := userId, videoUrl := videoUrl,
                         audioUrl := audioUrl, timestamp := Some(now + "Z")))
  }

  /** Whether the arrival of `detailType` finds the other half done: the
      audio finished with a URL when the video arrives (for a job that asked
      for audio), the video COMPLETED with a URL when the audio arrives
      (whatever the job asked for). */
  predicate OtherHalfDone(job: Job, detailType: string) {
    || (detailType == VideoRendered && WantsAudio(job) &&
        job.audioStatus == Some(COMPLETED) && Present(job.audioUrl))
    || (detailType == AudioRendered && job.status == Some(COMPLETED) && Present(job.outputUrl))
  }

  /** The URLs the ready request carries: the arriving half's URL from the
      event, the other half's from the table. */
  function Pairing(job: Job, ev: Event): (urls: (Option<string>, Option<string>))
    ensures ev.detailType == VideoRendered ==> urls == (ev.detail.videoUrl, job.audioUrl)
    ensures ev.detailType != VideoRendered ==> urls == (job.outputUrl, ev.detail.audioUrl)
  {
    if ev.detailType == VideoRendered then (ev.detail.videoUrl, job.audioUrl)
    else (job.outputUrl, ev.detail.audioUrl)
  }

  /** The handler. `get`, `write` and `publish` are the outcomes of the
      table read, the completion write and the publish; `now` the clock.
      It writes only for a video-only job on `video.rendered` (status
      COMPLETED and completedAt), publishes at most one ready request,
      exactly when the other half is done, and answers 200 unless the
      event has no job id (400), the job is missing (404) or a call
      raised (500). */
  function Orchestrate(store: Store, ev: Event, get: Call, write: Call, publish: Call, now: string)
    : (o: Outcome)
    ensures !Present(ev.detail.jobId) ==> o == Outcome(store, [], 400)
    ensures Present(ev.detail.jobId) && get.Raise? ==> o == Outcome(store, [], 500)
    ensures Present(ev.detail.jobId) && get.Ok? && ev.detail.jobId.value !in store ==>
              o == Outcome(store, [], 404)
    ensures |o.events| <= 1
    ensures o.store != store ==>
              var id := ev.detail.jobId.value;
              && ev.detailType == VideoRendered && id in store && !WantsAudio(store[id])
              && o.store == store[id := store[id].(status := Some(COMPLETED),
                                                   completedAt := Some(now + "Z"))]
    ensures |o.events| == 1 <==>
              && Present(ev.detail.jobId) && get.Ok? && ev.detail.jobId.value in store
              && OtherHalfDone(store[ev.detail.jobId.value], ev.detailType) && publish.Ok?
    ensures |o.events| == 1 ==>
              var job := store[ev.detail.jobId.value];
              var urls := Pairing(job, ev);
              o.events[0] == ReadyEvent(ev.detail.jobId.value, ev.detail.userId, urls.0, urls.1, now)
    ensures o.code in {200, 400, 404, 500}
    ensures Present(ev.detail.jobId) && get.Ok? && ev.detail.jobId.value in store ==>
              var id := ev.detail.jobId.value;
              && (ev.detailType == VideoRendered && !WantsAudio(store[id]) && write.Ok? ==>
                    o == Outcome(store[id := store[id].(status := Some(COMPLETED), completedAt := Some(now + "Z"))],
                                 [], 200))
              && (ev.detailType == VideoRendered && !WantsAudio(store[id]) && write.Raise? ==>
                    o == Outcome(store, [], 500))
              && (OtherHalfDone(store[id], ev.detailType) && publish.Raise? ==> o == Outcome(store, [], 500))
              && (o.code == 500 <==>
                    if ev.detailType == VideoRendered && !WantsAudio(store[id]) then write.Raise?
                    else OtherHalfDone(store[id], ev.detailType) && publish.Raise?)
  {
    if !Present(ev.detail.jobId) then Outcome(store, [], 400)
    else
      var id := ev.detail.jobId.value;
      if get.Raise? then Outcome(store, [], 500)
      else if id !in store then Outcome(store, [], 404)
      else
        var job := store[id];
        if ev.detailType == VideoRendered && !WantsAudio(job) then
          if write.Raise? then Outcome(store, [], 500)
          else Outcome(store[id := job.(status := Some(COMPLETED), completedAt := Some(now + "Z"))], [], 200)
        else if OtherHalfDone(job, ev.detailType) then
          var urls := Pairing(job, ev);
          if publish.Raise? then Outcome(store, [], 500)
          else Outcome(store, [ReadyEvent(id, ev.detail.userId, urls.0, urls.1, now)], 200)
        else Outcome(store, [], 200)
  }
}
