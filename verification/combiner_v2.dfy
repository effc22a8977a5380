/** The provider-based combiner (admin-vanilla/temp-cors-handler/video-audio-combiner-lambda-v2.py):
    on `video.audio.ready` it asks the provider to merge the two tracks;
    a non-200 answer completes the job with separate tracks, a 200 answer
    records the merged URL, and any exception falls back to separate
    tracks. It always answers 200 for a complete event.

    Three of its updates (source lines 103, 151 and 195) name the attribute
    `status` without an attribute-name placeholder, which the table rejects.
    `HandleV2` is the handler with those updates behaving as intended;
    `HandleV2AsWritten` is the handler as written. */
module CombinerV2 {

  import opened Wrappers
  import opened Jobs
  import opened Combining

  const COMPLETED_SEPARATE_TRACKS: string := "COMPLETED_SEPARATE_TRACKS"
  const FAILED_FALLBACK_SEPARATE: string := "FAILED_FALLBACK_SEPARATE"
  const NoApiKeyError: string := "Failed to get FAL API key"
  const NoCombinedUrlError: string := "No combined video URL in FAL response"

  /** The `video` member of the provider's result: absent, present but not
      an object (null included, whose `.get` raises), or an object with its
      `url` key. */
  datatype VideoMember = NoVideo | NotAnObject(typeName: string) | VideoObject(url: Option<string>)

  datatype CombineResult = CombineResult(video: VideoMember, url: Option<string>)

  /** The provider call: it raised, or answered with a status code and a
      JSON result. */
  datatype CombineResponse = Transport(msg: string) | Http(code: nat, result: CombineResult)

  /** Whether an API key was found, and the outcomes of the calls in order:
      the PROCESSING write, the provider, the separate-tracks write and
      publish (non-200 path), the merged-URL write and ready publish (200
      path), and the fallback write of the `except` branch. */
  datatype V2Calls = V2Calls(apiKey: bool, markProcessing: Call, provider: CombineResponse,
                             markSeparate: Call, publishSeparate: Call, record: Call, publishReady: Call,
                             markFallback: Call)

  /** The merged video's URL: `video.url` when truthy, else the top-level
      `url`; `Failure` carries the text of the exception raised when neither
      is usable or `video` is not an object. */
  function CombinedVideoUrl(r: CombineResult): (u: Result<string, string>)
    ensures u.Success? ==> u.value != ""
    ensures u.Success? ==> Some(u.value) == r.url || (r.video.VideoObject? && Some(u.value) == r.video.url)
    ensures r.video.VideoObject? && Present(r.video.url) ==> u == Success(r.video.url.value)
    ensures !r.video.NotAnObject? && !(r.video.VideoObject? && Present(r.video.url)) ==>
              (u.Success? <==> Present(r.url)) && (u.Failure? ==> u.error == NoCombinedUrlError)
    ensures r.video.NotAnObject? ==> u.Failure?
  {
    match r.video
    case NotAnObject(t) => Failure("'" + t + "' object has no attribute 'get'")
    case NoVideo => if Present(r.url) then Success(r.url.value) else Failure(NoCombinedUrlError)
    case VideoObject(vu) =>
      if Present(vu) then Success(vu.value)
      else if Present(r.url) then Success(r.url.value)
      else Failure(NoCombinedUrlError)
  }

  /** The `except` branch: a best-effort update recording the fallback, its
      error text and the job COMPLETED; no event; the answer is 200. */
  function Fallback(store: Store, id: string, msg: string, c: V2Calls, now: string): (o: Outcome)
    ensures o.code == 200 && o.events == []
    ensures c.markFallback.Raise? ==> o.store == store
    ensures c.markFallback.Ok? ==>
              id in o.store && o.store[id].status == Some(COMPLETED)
              && o.store[id].combinedStatus == Some(FAILED_FALLBACK_SEPARATE)
              && o.store[id].combinedError == Some(msg)
  {
    Outcome(Attempt(store, id, Stored(store, id).(combinedStatus := Some(FAILED_FALLBACK_SEPARATE),
                                                  combinedError := Some(msg),
                                                  combinedFailedTime := Some(now + "Z"),
                                                  status := Some(COMPLETED)), c.markFallback), [], 200)
  }

  /** The handler with every update behaving as its author intended. It
      answers 400 without writing for an incomplete event and 200
      otherwise, publishes at most one event, and writes only the event's
      job. When the key is found, the provider merges the tracks and every
      call succeeds, the job is COMPLETED with the merged URL as both its
      video and combined URL, and one ready event is published. */
  function HandleV2(store: Store, d: Detail, c: V2Calls, now: string): (o: Outcome)
    ensures !Complete(d) ==> o == Outcome(store, [], 400)
    ensures o.code in {200, 400} && (o.code == 400 <==> !Complete(d))
    ensures |o.events| <= 1
    ensures forall e :: e in o.events ==> e.detailType in {CombinedReadyType, SeparateTracksType}
    ensures Complete(d) && c.apiKey && c.markProcessing.Ok? && c.provider.Http? && c.provider.code == 200
            && CombinedVideoUrl(c.provider.result).Success? && c.record.Ok? && c.publishReady.Ok? ==>
              var id := d.jobId.value;
              var url := CombinedVideoUrl(c.provider.result).value;
              && id in o.store && o.store[id].status == Some(COMPLETED)
              && o.store[id].combinedUrl == Some(url) && o.store[id].outputUrl == Some(url)
              && o.store[id].combinedStatus == Some(COMPLETED)
              && o.events == [CombinedReadyEvent(id, d.userId.value, url, d.videoUrl.value, d.audioUrl.value, now)]
    ensures Complete(d) && c.apiKey && c.markProcessing.Ok? && c.provider.Http? && c.provider.code != 200
            && c.markSeparate.Ok? && c.publishSeparate.Ok? ==>
              var id := d.jobId.value;
              && id in o.store && o.store[id].status == Some(COMPLETED)
              && o.store[id].combinedStatus == Some(COMPLETED_SEPARATE_TRACKS)
              && o.events == [SeparateEvent(id, d.userId.value, d.videoUrl.value, d.audioUrl.value, None, now)]
    ensures forall k :: k in o.store && Some(k) != d.jobId ==> k in store && o.store[k] == store[k]
  {
    if !Complete(d) then Outcome(store, [], 400)
    else
      var id := d.jobId.value;
      var userId := d.userId.value;
      var video := d.videoUrl.value;
      var audio := d.audioUrl.value;
      // Without a key the exception is raised before the table is bound, so
      // the fallback update itself raises and is swallowed: nothing is written.
      if !c.apiKey then Outcome(store, [], 200)
      else if c.markProcessing.Raise? then Fallback(store, id, c.markProcessing.msg, c, now)
      else Merge(store[id := Stored(store, id).(combinedStatus := Some(PROCESSING),
                                                combinedStartTime := Some(now + "Z"))],
                 id, userId, video, audio, c, now)
  }

  /** The handler after the PROCESSING write: the provider call and, by its
      answer, the separate-tracks or the merged-URL completion, any
      exception reaching the fallback. */
  function Merge(started: Store, id: string, userId: string, video: string, audio: string, c: V2Calls,
                 now: string): (o: Outcome)
    ensures o.code == 200 && |o.events| <= 1
    ensures forall e :: e in o.events ==> e.detailType in {CombinedReadyType, SeparateTracksType}
    ensures c.provider.Http? && c.provider.code == 200 && CombinedVideoUrl(c.provider.result).Success?
            && c.record.Ok? && c.publishReady.Ok? ==>
              var url := CombinedVideoUrl(c.provider.result).value;
              && id in o.store && o.store[id].status == Some(COMPLETED)
              && o.store[id].combinedUrl == Some(url) && o.store[id].outputUrl == Some(url)
              && o.store[id].combinedStatus == Some(COMPLETED)
              && o.events == [CombinedReadyEvent(id, userId, url, video, audio, now)]
    ensures c.provider.Http? && c.provider.code != 200 && c.markSeparate.Ok? && c.publishSeparate.Ok? ==>
              && id in o.store && o.store[id].status == Some(COMPLETED)
              && o.store[id].combinedStatus == Some(COMPLETED_SEPARATE_TRACKS)
              && o.events == [SeparateEvent(id, userId, video, audio, None, now)]
    ensures forall k :: k in o.store && k != id ==> k in started && o.store[k] == started[k]
  {
    match c.provider
    case Transport(msg) => Fallback(started, id, msg, c, now)
    case Http(code, result) =>
      if code != 200 then
        if c.markSeparate.Raise? then Fallback(started, id, c.markSeparate.msg, c, now)
        else
          var separate := started[id := Stored(started, id).(combinedStatus := Some(COMPLETED_SEPARATE_TRACKS),
                                                            combinedCompletedTime := Some(now + "Z"),
                                                            status := Some(COMPLETED))];
          if c.publishSeparate.Raise? then Fallback(separate, id, c.publishSeparate.msg, c, now)
          else Outcome(separate, [SeparateEvent(id, userId, video, audio, None, now)], 200)
      else
        match CombinedVideoUrl(result)
        case Failure(msg) => Fallback(started, id, msg, c, now)
        case Success(url) =>
          if c.record.Raise? then Fallback(started, id, c.record.msg, c, now)
          else
            var done := started[id := Stored(started, id).(outputUrl := Some(url), combinedUrl := Some(url),
                                                          combinedStatus := Some(COMPLETED),
                                                          combinedCompletedTime := Some(now + "Z"),
                                                          status := Some(COMPLETED))];
            if c.publishReady.Raise? then Fallback(done, id, c.publishReady.msg, c, now)
            else Outcome(done, [CombinedReadyEvent(id, userId, url, video, audio, now)], 200)
  }

  /** With the intended updates, an accepted event whose fallback update
      succeeds always leaves the job COMPLETED and its combination in a
      final state, never PROCESSING. */
  lemma V2Terminal(store: Store, d: Detail, c: V2Calls, now: string)
    requires Complete(d) && c.apiKey && c.markFallback.Ok?
    ensures var o := HandleV2(store, d, c, now);
            && d.jobId.value in o.store
            && o.store[d.jobId.value].status == Some(COMPLETED)
            && o.store[d.jobId.value].combinedStatus in
                 {Some(COMPLETED), Some(COMPLETED_SEPARATE_TRACKS), Some(FAILED_FALLBACK_SEPARATE)}
  {
  }

  /** The calls as the table answers the handler's own update expressions:
      the three updates that name `status` unaliased always raise. */
  function V2AsIssued(c: V2Calls): (r: V2Calls)
    ensures r.markSeparate.Raise? && r.record.Raise? && r.markFallback.Raise?
    ensures r.(markSeparate := c.markSeparate, record := c.record, markFallback := c.markFallback) == c
  {
    c.(markSeparate := AsIssued(c.markSeparate, true), record := AsIssued(c.record, true),
       markFallback := AsIssued(c.markFallback, true))
  }

  /** The handler as written. Whatever the provider and the other calls do,
      it never publishes, never changes any job's status and never records
      a merged URL: the one update that can land is the PROCESSING mark. */
  function HandleV2AsWritten(store: Store, d: Detail, c: V2Calls, now: string): (o: Outcome)
    ensures o.events == []
    ensures o.code == if Complete(d) then 200 else 400
    ensures || o.store == store
            || (&& Complete(d)
                && o.store == store[d.jobId.value := Stored(store, d.jobId.value).(combinedStatus := Some(PROCESSING),
                                                                                    combinedStartTime := Some(now + "Z"))])
  {
    HandleV2(store, d, V2AsIssued(c), now)
  }

  /** The discrepancy on a concrete run: the provider merges the tracks and
      every call the table accepts succeeds, yet the job is left with its
      combination PROCESSING and its status as before, and no ready event
      is published; the intended handler completes it. */
  lemma V2AsWrittenStuckProcessing(store: Store, d: Detail, now: string)
    requires Complete(d)
    ensures var c := V2Calls(true, Ok, Http(200, CombineResult(NoVideo, Some("https://merged"))), Ok, Ok, Ok, Ok, Ok);
            var id := d.jobId.value;
            var written := HandleV2AsWritten(store, d, c, now);
            var intended := HandleV2(store, d, c, now);
            && id in written.store && written.store[id].combinedStatus == Some(PROCESSING)
            && written.store[id].status == Stored(store, id).status
            && written.events == []
            && intended.store[id].status == Some(COMPLETED)
            && intended.store[id].combinedUrl == Some("https://merged")
            && |intended.events| == 1
  {
  }
}
