/** The audio handler (admin-vanilla/temp-cors-handler/audio-handler-lambda.py):
    on `audio.job.submitted` it marks the job's audio PROCESSING, calls the
    audio model, records the audio URL and publishes `audio.rendered`; any
    failure on the way marks the audio FAILED and publishes `audio.failed`.
    It only ever writes the audio attributes of the item. */
module AudioHandler {

  import opened Wrappers
  import opened Text
  import opened Jobs

  const AudioHandlerSource: string := "contentcraft.audiohandler"
  const AudioRenderedType: string := "audio.rendered"
  const AudioFailedType: string := "audio.failed"
  const DefaultAudioModel: string := "fal-ai/cassetteai/sound-effects-generator"
  const ProviderBase: string := "https://fal.run/"
  const ModelNamespace: string := "fal-ai/"
  const NoAudioUrlError: string := "No audio URL in FAL response"

  /** The model's endpoint: the model id under the provider's base URL,
      with the `fal-ai/` namespace added when the id lacks it. */
  function Endpoint(model: string): (url: string)
    ensures StartsWith(url, ProviderBase + ModelNamespace)
    ensures StartsWith(model, ModelNamespace) ==> url == ProviderBase + model
  {
    if StartsWith(model, ModelNamespace) then
      assert (ProviderBase + model)[..|ProviderBase + ModelNamespace|] == ProviderBase + model[..|ModelNamespace|];
      ProviderBase + model
    else ProviderBase + ModelNamespace + model
  }

  /** Naming a model with or without its namespace reaches the same endpoint. */
  lemma EndpointIgnoresNamespace(model: string)
    requires !StartsWith(model, ModelNamespace)
    ensures Endpoint(ModelNamespace + model) == Endpoint(model)
  {
    assert (ModelNamespace + model)[..|ModelNamespace|] == ModelNamespace;
    assert ProviderBase + (ModelNamespace + model) == ProviderBase + ModelNamespace + model;
  }

  /** A member of the provider's result that the handler looks into: absent,
      present but not an object, or an object with its `url` and
      `audio_url` keys. A key holding null is `Some("")`: both are falsy. */
  datatype Nested = Absent | NonDict | Dict(url: Option<string>, audio_url: Option<string>)

  /** The provider's JSON result, reduced to the keys the handler reads. */
  datatype AudioResult = AudioResult(audio_url: Option<string>, url: Option<string>,
                                     output: Nested, audio: Nested, audio_file: Nested)

  /** The provider call: it raised (timeout, connection), or answered with
      a status code, its text and its JSON result. */
  datatype AudioResponse = Transport(msg: string) | Http(code: nat, text: string, result: AudioResult)

  /** The candidate URL, by the first shape the result has: top-level
      `audio_url`, top-level `url`, `output.url` (or `output.audio_url` when
      that is falsy), `audio.url`, `audio_file.url`. A present top-level key
      decides even when its value is empty. */
  function ExtractAudioUrl(r: AudioResult): (u: Option<string>)
    ensures r.audio_url.Some? ==> u == r.audio_url
    ensures r.audio_url.None? && r.url.Some? ==> u == r.url
    ensures r.audio_url.None? && r.url.None? && r.output.Dict? ==>
              u == (if Present(r.output.url) then r.output.url else r.output.audio_url)
    ensures r.audio_url.None? && r.url.None? && !r.output.Dict? && r.audio.Dict? ==> u == r.audio.url
    ensures r.audio_url.None? && r.url.None? && !r.output.Dict? && !r.audio.Dict? && r.audio_file.Dict? ==>
              u == r.audio_file.url
    ensures r.audio_url.None? && r.url.None? && !r.output.Dict? && !r.audio.Dict? && !r.audio_file.Dict? ==>
              u.None?
    ensures u.Some? ==> u == r.audio_url || u == r.url
                        || (r.output.Dict? && (u == r.output.url || u == r.output.audio_url))
                        || (r.audio.Dict? && u == r.audio.url)
                        || (r.audio_file.Dict? && u == r.audio_file.url)
  {
    if r.audio_url.Some? then r.audio_url
    else if r.url.Some? then r.url
    else if r.output.Dict? then (if Present(r.output.url) then r.output.url else r.output.audio_url)
    else if r.audio.Dict? then r.audio.url
    else if r.audio_file.Dict? then r.audio_file.url
    else None
  }

  /** The outcomes of the calls the handler makes, in order. */
  datatype AudioCalls = AudioCalls(markProcessing: Call, provider: AudioResponse, record: Call,
                                   publishRendered: Call, markFailed: Call, publishFailed: Call)

  /** `b` differs from `a` at most in the audio attributes. */
  predicate AudioFieldsOnly(a: Job, b: Job) {
    b == a.(audioStatus := b.audioStatus, audioUrl := b.audioUrl, audioError := b.audioError,
            audioStartTime := b.audioStartTime, audioCompletedTime := b.audioCompletedTime,
            audioFailedTime := b.audioFailedTime)
  }

  function RenderedEvent(id: string, userId: string, url: string, model: string, now: string): Event {
    Event(AudioHandlerSource, AudioRenderedType,
          EmptyDetail().(jobId := Some(id), userId := Some(userId), audioUrl := Some(url),
                         model := Some(model), timestamp := Some(now + "Z")))
  }

  function FailedEvent(id: string, userId: string, error: string, model: string, now: string): Event {
    Event(AudioHandlerSource, AudioFailedType,
          EmptyDetail().(jobId := Some(id), userId := Some(userId), error := Some(error),
                         model := Some(model), timestamp := Some(now + "Z")))
  }

  /** `after` is `before` with at most the audio attributes of `id` written. */
  predicate AudioOnly(before: Store, after: Store, id: string) {
    && (forall k :: k in after ==> k in before || k == id)
    && (forall k :: k in before ==> k in after)
    && (forall k :: k in after ==> AudioFieldsOnly(Stored(before, k), after[k]))
  }

  lemma AudioOnlyTransitive(a: Store, b: Store, c: Store, id: string)
    requires AudioOnly(a, b, id) && AudioOnly(b, c, id)
    ensures AudioOnly(a, c, id)
  {
    forall k | k in c ensures AudioFieldsOnly(Stored(a, k), c[k]) {
      assert AudioFieldsOnly(Stored(b, k), c[k]);
      if k in b {
        assert AudioFieldsOnly(Stored(a, k), b[k]);
      } else {
        assert Stored(b, k) == Stored(a, k);
      }
    }
  }

  /** The `except` branch: a best-effort FAILED write with the error text
      and a best-effort `audio.failed`; the answer is 500. */
  function Fail(store: Store, id: string, userId: string, model: string, msg: string, c: AudioCalls,
                now: string): (o: Outcome)
    ensures o.code == 500
    ensures c.markFailed.Ok? ==> id in o.store && o.store[id].audioStatus == Some(FAILED)
                                 && o.store[id].audioError == Some(msg)
    ensures c.markFailed.Raise? ==> o.store == store
    ensures o.events == if c.publishFailed.Ok? then [FailedEvent(id, userId, msg, model, now)] else []
    ensures AudioOnly(store, o.store, id)
  {
    var failedJob := Stored(store, id).(audioStatus := Some(FAILED), audioError := Some(msg),
                                        audioFailedTime := Some(now + "Z"));
    Outcome(Attempt(store, id, failedJob, c.markFailed),
            Publish([], FailedEvent(id, userId, msg, model, now), c.publishFailed), 500)
  }

  /** The exception text of a non-200 answer. */
  function ProviderError(code: nat, text: string): string {
    "FAL API error: " + NatToString(code) + " - " + text
  }

  /** Whether every call up to the recorded URL succeeds and the result has
      a usable URL. */
  predicate Produces(c: AudioCalls) {
    && c.markProcessing.Ok? && c.provider.Http? && c.provider.code == 200
    && Present(ExtractAudioUrl(c.provider.result))
  }

  /** The text of the exception the handler's `except` catches when some
      step fails: the first failing call, a non-200 answer, or a result
      without a usable URL. */
  function FailureMessage(c: AudioCalls): string
    requires !(Produces(c) && c.record.Ok? && c.publishRendered.Ok?)
  {
    if c.markProcessing.Raise? then c.markProcessing.msg
    else match c.provider
      case Transport(msg) => msg
      case Http(code, text, result) =>
        if code != 200 then ProviderError(code, text)
        else if !Present(ExtractAudioUrl(result)) then NoAudioUrlError
        else if c.record.Raise? then c.record.msg
        else c.publishRendered.msg
  }

  /** The handler. It answers 400 without touching anything when the event
      lacks a job or user id; 200 exactly when every step succeeds, with
      the URL recorded, the audio COMPLETED and one `audio.rendered`; 500
      otherwise. */
  function HandleAudio(store: Store, detail: Detail, c: AudioCalls, now: string): (o: Outcome)
    ensures !Present(detail.jobId) || !Present(detail.userId) ==> o == Outcome(store, [], 400)
    ensures o.code in {200, 400, 500}
    ensures o.code == 200 <==>
              Present(detail.jobId) && Present(detail.userId) && Produces(c)
              && c.record.Ok? && c.publishRendered.Ok?
    ensures o.code == 200 ==>
              var id := detail.jobId.value;
              && id in o.store
              && o.store[id].audioUrl == ExtractAudioUrl(c.provider.result)
              && o.store[id].audioStatus == Some(COMPLETED)
              && o.events == [RenderedEvent(id, detail.userId.value, ExtractAudioUrl(c.provider.result).value,
                                            detail.model.GetOr(DefaultAudioModel), now)]
    ensures o.code == 500 ==> |o.events| <= 1 && forall e :: e in o.events ==> e.detailType == AudioFailedType
    ensures o.code == 500 ==>
              var id := detail.jobId.value;
              var msg := FailureMessage(c);
              && (c.markFailed.Ok? ==> id in o.store && o.store[id].audioStatus == Some(FAILED)
                                       && o.store[id].audioError == Some(msg))
              && o.events == if c.publishFailed.Ok?
                             then [FailedEvent(id, detail.userId.value, msg, detail.model.GetOr(DefaultAudioModel), now)]
                             else []
  {
    if !Present(detail.jobId) || !Present(detail.userId) then Outcome(store, [], 400)
    else
      var id := detail.jobId.value;
      var userId := detail.userId.value;
      var model := detail.model.GetOr(DefaultAudioModel);
      if c.markProcessing.Raise? then Fail(store, id, userId, model, c.markProcessing.msg, c, now)
      else Generate(store[id := Stored(store, id).(audioStatus := Some(PROCESSING),
                                                   audioStartTime := Some(now + "Z"))],
                    id, userId, model, c, now)
  }

  /** The handler after the PROCESSING write: the provider call, the URL
      check, the COMPLETED write and the `audio.rendered` publish, any
      failure reaching the `except` branch with its message. */
  function Generate(started: Store, id: string, userId: string, model: string, c: AudioCalls,
                    now: string): (o: Outcome)
    requires c.markProcessing.Ok?
    ensures o.code in {200, 500}
    ensures o.code == 200 <==> Produces(c) && c.record.Ok? && c.publishRendered.Ok?
    ensures o.code == 200 ==>
              && id in o.store
              && o.store[id].audioUrl == ExtractAudioUrl(c.provider.result)
              && o.store[id].audioStatus == Some(COMPLETED)
              && o.events == [RenderedEvent(id, userId, ExtractAudioUrl(c.provider.result).value, model, now)]
    ensures o.code == 500 ==>
              && (c.markFailed.Ok? ==> id in o.store && o.store[id].audioStatus == Some(FAILED)
                                       && o.store[id].audioError == Some(FailureMessage(c)))
              && o.events == if c.publishFailed.Ok? then [FailedEvent(id, userId, FailureMessage(c), model, now)]
                             else []
  {
    match c.provider
    case Transport(msg) => Fail(started, id, userId, model, msg, c, now)
    case Http(code, text, result) =>
      if code != 200 then Fail(started, id, userId, model, ProviderError(code, text), c, now)
      else
        var url := ExtractAudioUrl(result);
        if !Present(url) then Fail(started, id, userId, model, NoAudioUrlError, c, now)
        else if c.record.Raise? then Fail(started, id, userId, model, c.record.msg, c, now)
        else
          var recorded := started[id := Stored(started, id).(audioUrl := url,
                                                            audioStatus := Some(COMPLETED),
                                                            audioCompletedTime := Some(now + "Z"))];
          if c.publishRendered.Raise? then Fail(recorded, id, userId, model, c.publishRendered.msg, c, now)
          else Outcome(recorded, [RenderedEvent(id, userId, url.value, model, now)], 200)
  }

  /** The `audio.rendered` publish raising after the URL was recorded: the
      item keeps the URL but its audio is FAILED, so the orchestrator will
      not pair it on a later video arrival. */
  lemma RenderedPublishFailureLeavesUrl(store: Store, detail: Detail, c: AudioCalls, now: string)
    requires Present(detail.jobId) && Present(detail.userId) && Produces(c)
    requires c.record.Ok? && c.publishRendered.Raise? && c.markFailed.Ok?
    ensures var o := HandleAudio(store, detail, c, now);
            && o.code == 500
            && detail.jobId.value in o.store
            && o.store[detail.jobId.value].audioUrl == ExtractAudioUrl(c.provider.result)
            && o.store[detail.jobId.value].audioStatus == Some(FAILED)
  {
  }

  /** Whatever happens, only the event's job is written, and only its
      audio attributes: the video status, the video URL and the combination
      attributes are never touched. */
  lemma {:induction false} HandleAudioWritesOnlyAudio(store: Store, detail: Detail, c: AudioCalls, now: string)
    requires Present(detail.jobId)
    ensures AudioOnly(store, HandleAudio(store, detail, c, now).store, detail.jobId.value)
  {
    var id := detail.jobId.value;
    if Present(detail.userId) && c.markProcessing.Ok? {
      var started := store[id := Stored(store, id).(audioStatus := Some(PROCESSING),
                                                   audioStartTime := Some(now + "Z"))];
      assert AudioOnly(store, started, id);
      var o := Generate(started, id, detail.userId.value, detail.model.GetOr(DefaultAudioModel), c, now);
      GenerateWritesOnlyAudio(started, id, detail.userId.value, detail.model.GetOr(DefaultAudioModel), c, now);
      AudioOnlyTransitive(store, started, o.store, id);
    }
  }

  /** After the PROCESSING write, only the audio attributes of `id` change. */
  lemma {:induction false} GenerateWritesOnlyAudio(started: Store, id: string, userId: string, model: string,
                                                   c: AudioCalls, now: string)
    requires c.markProcessing.Ok?
    ensures AudioOnly(started, Generate(started, id, userId, model, c, now).store, id)
  {
    if Produces(c) && c.record.Ok? {
      var url := ExtractAudioUrl(c.provider.result);
      var recorded := started[id := Stored(started, id).(audioUrl := url,
                                                        audioStatus := Some(COMPLETED),
                                                        audioCompletedTime := Some(now + "Z"))];
      assert AudioOnly(started, recorded, id);
      if c.publishRendered.Raise? {
        AudioOnlyTransitive(started, recorded, Generate(started, id, userId, model, c, now).store, id);
      }
    }
  }
}
