/** The in-function ffmpeg combiner (admin-vanilla/temp-cors-handler/video-audio-combiner-lambda.py):
    on `video.audio.ready` it marks the combination PROCESSING, downloads
    and muxes the tracks, uploads the result, records the merged URL with
    the job COMPLETED and publishes `combined.video.ready`; on any failure
    it records the combination FAILED and publishes `combined.video.failed`.

    Its recording update (source line 118) names the attribute `status`
    without an attribute-name placeholder, which the table rejects.
    `HandleLambda` is the handler with that update behaving as intended;
    `HandleLambdaAsWritten` is the handler as written. */
module CombinerLambda {

  import opened Wrappers
  import opened Jobs
  import opened Combining

  /** The public URL of the merged file of job `id`. */
  function MergedUrl(id: string): string {
    CloudFrontDomain + "/videos/" + id + "-combined.mp4"
  }

  lemma MergedUrlInjective(a: string, b: string)
    requires MergedUrl(a) == MergedUrl(b)
    ensures a == b
  {
    AffixInjective(CloudFrontDomain + "/videos/", a, b, "-combined.mp4");
  }

  /** The outcomes of the calls in order: the PROCESSING write, the
      download-mux-upload step, the recording write, the ready publish, and
      in the `except` branch the FAILED write and the failed publish. */
  datatype LambdaCalls = LambdaCalls(markProcessing: Call, combine: Call, record: Call, publishReady: Call,
                                     markFailed: Call, publishFailed: Call)

  function FailedEvent(id: string, userId: string, error: string, now: string): (e: Event)
    ensures e.detailType == CombinedFailedType && e.detail.error == Some(error)
  {
    Event(CombinerSource, CombinedFailedType,
          EmptyDetail().(jobId := Some(id), userId := Some(userId), error := Some(error),
                         timestamp := Some(now + "Z")))
  }

  /** The `except` branch: a best-effort FAILED write with the error text,
      a best-effort failed event, and 500. The job's status is untouched. */
  function Fail(store: Store, id: string, userId: string, msg: string, c: LambdaCalls, now: string)
    : (o: Outcome)
    ensures o.code == 500
    ensures o.events == if c.publishFailed.Ok? then [FailedEvent(id, userId, msg, now)] else []
    ensures c.markFailed.Raise? ==> o.store == store
    ensures c.markFailed.Ok? ==>
              o.store == store[id := Stored(store, id).(combinedStatus := Some(FAILED), combinedError := Some(msg),
                                                        combinedFailedTime := Some(now + "Z"))]
  {
    Outcome(Attempt(store, id, Stored(store, id).(combinedStatus := Some(FAILED), combinedError := Some(msg),
                                                  combinedFailedTime := Some(now + "Z")), c.markFailed),
            Publish([], FailedEvent(id, userId, msg, now), c.publishFailed), 500)
  }

  predicate AllSucceed(c: LambdaCalls) {
    c.markProcessing.Ok? && c.combine.Ok? && c.record.Ok? && c.publishReady.Ok?
  }

  /** The handler with every update behaving as intended: 400 without
      writing for an incomplete event; 200 exactly when every step
      succeeds, with the job COMPLETED, the merged URL recorded as both
      its video and combined URL, and one ready event; 500 otherwise, with
      at most one failed event. Only the event's job is written. */
  function HandleLambda(store: Store, d: Detail, c: LambdaCalls, now: string): (o: Outcome)
    ensures !Complete(d) ==> o == Outcome(store, [], 400)
    ensures o.code in {200, 400, 500}
    ensures o.code == 200 <==> Complete(d) && AllSucceed(c)
    ensures o.code == 200 ==>
              var id := d.jobId.value;
              && id in o.store && o.store[id].status == Some(COMPLETED)
              && o.store[id].outputUrl == Some(MergedUrl(id)) && o.store[id].combinedUrl == Some(MergedUrl(id))
              && o.store[id].combinedStatus == Some(COMPLETED)
              && o.events == [CombinedReadyEvent(id, d.userId.value, MergedUrl(id), d.videoUrl.value,
                                                 d.audioUrl.value, now)]
    ensures o.code == 500 ==> |o.events| <= 1 && forall e :: e in o.events ==> e.detailType == CombinedFailedType
    ensures forall k :: k in o.store && Some(k) != d.jobId ==> k in store && o.store[k] == store[k]
  {
    if !Complete(d) then Outcome(store, [], 400)
    else
      var id := d.jobId.value;
      var userId := d.userId.value;
      if c.markProcessing.Raise? then Fail(store, id, userId, c.markProcessing.msg, c, now)
      else
        var started := store[id := Stored(store, id).(combinedStatus := Some(PROCESSING),
                                                     combinedStartTime := Some(now + "Z"))];
        if c.combine.Raise? then Fail(started, id, userId, c.combine.msg, c, now)
        else if c.record.Raise? then Fail(started, id, userId, c.record.msg, c, now)
        else
          var url := MergedUrl(id);
          var done := started[id := Stored(started, id).(outputUrl := Some(url), combinedUrl := Some(url),
                                                        combinedStatus := Some(COMPLETED),
                                                        combinedCompletedTime := Some(now + "Z"),
                                                        status := Some(COMPLETED))];
          if c.publishReady.Raise? then Fail(done, id, userId, c.publishReady.msg, c, now)
          else Outcome(done, [CombinedReadyEvent(id, userId, url, d.videoUrl.value, d.audioUrl.value, now)], 200)
  }

  /** With the intended update, a failure is never left PROCESSING when the
      FAILED write succeeds, and success completes the job. */
  lemma LambdaTerminal(store: Store, d: Detail, c: LambdaCalls, now: string)
    requires Complete(d) && c.markFailed.Ok?
    ensures var o := HandleLambda(store, d, c, now);
            && d.jobId.value in o.store
            && o.store[d.jobId.value].combinedStatus in {Some(COMPLETED), Some(FAILED)}
  {
  }

  /** The handler as written: the recording update always raises. It never
      answers 200, never publishes a ready event, and never writes the
      job's status, video URL or combined URL. */
  function HandleLambdaAsWritten(store: Store, d: Detail, c: LambdaCalls, now: string): (o: Outcome)
    ensures o.code == if Complete(d) then 500 else 400
    ensures forall e :: e in o.events ==> e.detailType == CombinedFailedType
  {
    HandleLambda(store, d, c.(record := AsIssued(c.record, true)), now)
  }

  /** As written, no job's status, video URL or combined URL ever
      changes. */
  lemma AsWrittenKeepsUrls(store: Store, d: Detail, c: LambdaCalls, now: string, k: string)
    requires k in HandleLambdaAsWritten(store, d, c, now).store
    ensures var o := HandleLambdaAsWritten(store, d, c, now);
            && o.store[k].status == Stored(store, k).status
            && o.store[k].outputUrl == Stored(store, k).outputUrl
            && o.store[k].combinedUrl == Stored(store, k).combinedUrl
  {
    if Complete(d) {
      var id, userId := d.jobId.value, d.userId.value;
      var c' := c.(record := Raise(ReservedWordError));
      if c.markProcessing.Ok? {
        var started := store[id := Stored(store, id).(combinedStatus := Some(PROCESSING),
                                                     combinedStartTime := Some(now + "Z"))];
        var msg := if c.combine.Raise? then c.combine.msg else ReservedWordError;
        assert HandleLambdaAsWritten(store, d, c, now) == Fail(started, id, userId, msg, c', now);
      }
    }
  }

  /** The discrepancy on a concrete run: every step that the table accepts
      succeeds, yet the combination ends FAILED with the table's error, the
      job keeps its status, and `combined.video.failed` is published; the
      intended handler completes it. */
  lemma LambdaAsWrittenFails(store: Store, d: Detail, now: string)
    requires Complete(d)
    ensures var c := LambdaCalls(Ok, Ok, Ok, Ok, Ok, Ok);
            var id := d.jobId.value;
            var written := HandleLambdaAsWritten(store, d, c, now);
            var intended := HandleLambda(store, d, c, now);
            && id in written.store
            && written.store[id].combinedStatus == Some(FAILED)
            && written.store[id].combinedError == Some(ReservedWordError)
            && written.events == [FailedEvent(id, d.userId.value, ReservedWordError, now)]
            && intended.code == 200 && intended.store[id].status == Some(COMPLETED)
  {
  }
}
