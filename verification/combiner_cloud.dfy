/** The separate-tracks combiner (admin-vanilla/temp-cors-handler/video-audio-combiner-cloud.py):
    on `video.audio.ready` it does not merge anything; it marks the job
    COMPLETED with separate tracks and publishes `job.completed.with.audio`.
    Its `except` branch means to mark the job FAILED, but that update
    (source line 89) names `error`, a reserved word, without an
    attribute-name placeholder, so the table refuses it and the refusal is
    swallowed. `HandleCloud` is the handler with that update behaving as
    intended; `HandleCloudAsWritten` is the handler as written. */
module CombinerCloud {

  import opened Wrappers
  import opened Jobs
  import opened Combining

  /** The outcomes of the completion write, the publish, and the FAILED
      write of the `except` branch. */
  datatype CloudCalls = CloudCalls(markCompleted: Call, publish: Call, markFailed: Call)

  function CompletedEvent(id: string, userId: string, videoUrl: string, audioUrl: string, now: string)
    : (e: Event)
    ensures e.detailType == CompletedWithAudioType && e.detail.separateTracks == Some(true)
    ensures e.detail.videoUrl == Some(videoUrl) && e.detail.audioUrl == Some(audioUrl)
  {
    Event(CombinerSource, CompletedWithAudioType,
          EmptyDetail().(jobId := Some(id), userId := Some(userId), videoUrl := Some(videoUrl),
                         audioUrl := Some(audioUrl), separateTracks := Some(true), timestamp := Some(now + "Z")))
  }

  /** The handler with the FAILED update behaving as intended: 400 without
      writing for an incomplete event; 200 exactly when both the write and
      the publish succeed, with the job COMPLETED with separate tracks and
      one event; 500 otherwise, with no event and the job FAILED with the
      error text when that write succeeds. It never writes a combined URL
      and only writes the event's job. */
  function HandleCloud(store: Store, d: Detail, c: CloudCalls, now: string): (o: Outcome)
    ensures !Complete(d) ==> o == Outcome(store, [], 400)
    ensures o.code in {200, 400, 500}
    ensures o.code == 200 <==> Complete(d) && c.markCompleted.Ok? && c.publish.Ok?
    ensures o.code == 200 ==>
              var id := d.jobId.value;
              && id in o.store && o.store[id].status == Some(COMPLETED)
              && o.store[id].hasSeparateTracks == Some(true)
              && o.events == [CompletedEvent(id, d.userId.value, d.videoUrl.value, d.audioUrl.value, now)]
    ensures o.code == 500 ==> o.events == []
    ensures o.code == 500 && c.markFailed.Ok? ==>
              var id := d.jobId.value;
              var msg := if c.markCompleted.Raise? then c.markCompleted.msg else c.publish.msg;
              id in o.store && o.store[id].status == Some(FAILED) && o.store[id].error == Some(msg)
    ensures forall k :: k in o.store ==> o.store[k].combinedUrl == Stored(store, k).combinedUrl
    ensures forall k :: k in o.store && Some(k) != d.jobId ==> k in store && o.store[k] == store[k]
  {
    if !Complete(d) then Outcome(store, [], 400)
    else
      var id := d.jobId.value;
      var completed := store[id := Stored(store, id).(status := Some(COMPLETED), completedAt := Some(now + "Z"),
                                                     hasSeparateTracks := Some(true))];
      if c.markCompleted.Ok? && c.publish.Ok? then
        Outcome(completed, [CompletedEvent(id, d.userId.value, d.videoUrl.value, d.audioUrl.value, now)], 200)
      else
        var before := if c.markCompleted.Ok? then completed else store;
        var msg := if c.markCompleted.Raise? then c.markCompleted.msg else c.publish.msg;
        Outcome(Attempt(before, id, Stored(before, id).(status := Some(FAILED), error := Some(msg),
                                                        failedAt := Some(now + "Z")), c.markFailed), [], 500)
  }

  /** With the FAILED update behaving as intended, a publish that raises
      after the completion write turns a completed job into a FAILED one,
      though its tracks are in place: the item keeps the separate-tracks
      flag but its status reads FAILED. */
  lemma PublishFailureDowngrades(store: Store, d: Detail, c: CloudCalls, now: string)
    requires Complete(d) && c.markCompleted.Ok? && c.publish.Raise? && c.markFailed.Ok?
    ensures var o := HandleCloud(store, d, c, now);
            && o.code == 500 && d.jobId.value in o.store
            && o.store[d.jobId.value].status == Some(FAILED)
            && o.store[d.jobId.value].hasSeparateTracks == Some(true)
  {
  }

  /** The handler as written: the FAILED update is always refused. Its
      answers and events are those of the intended handler, but a failure
      leaves the table as the completion write left it: no job is ever set
      FAILED, and a raising completion write changes nothing. */
  function HandleCloudAsWritten(store: Store, d: Detail, c: CloudCalls, now: string): (o: Outcome)
    ensures o.code == HandleCloud(store, d, c, now).code && o.events == HandleCloud(store, d, c, now).events
    ensures o.code == 500 && c.markCompleted.Raise? ==> o.store == store
    ensures forall k :: k in o.store ==> o.store[k].status in {Stored(store, k).status, Some(COMPLETED)}
    ensures forall k :: k in o.store && Some(k) != d.jobId ==> k in store && o.store[k] == store[k]
  {
    HandleCloud(store, d, c.(markFailed := Raise(ErrorWordError)), now)
  }

  /** As written, a publish that raises after the completion write leaves
      the job COMPLETED with separate tracks and no error recorded, though
      the answer is 500; the intended handler marks it FAILED with the
      publish's error. */
  lemma CloudFailureUnrecorded(store: Store, d: Detail, c: CloudCalls, now: string)
    requires Complete(d) && c.markCompleted.Ok? && c.publish.Raise? && c.markFailed.Ok?
    ensures var id := d.jobId.value;
            var written := HandleCloudAsWritten(store, d, c, now);
            var intended := HandleCloud(store, d, c, now);
            && written.code == 500 && id in written.store
            && written.store[id].status == Some(COMPLETED)
            && written.store[id].hasSeparateTracks == Some(true)
            && written.store[id].error == Stored(store, id).error
            && intended.store[id].status == Some(FAILED) && intended.store[id].error == Some(c.publish.msg)
  {
  }
}
