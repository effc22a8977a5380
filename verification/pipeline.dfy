/** The handlers composed for one job that asked for audio: the queue
    drainer dispatches it, then four deliveries happen in some order: the
    status updater and the orchestrator each receive the renderer's
    `video.rendered`, the audio handler receives `audio.job.submitted`, and
    the orchestrator receives the resulting `audio.rendered`. Each delivery
    is handled alone, one after another; concurrent handling is outside
    the model.

    The theorem `RunPairs` says, for every order of deliveries (repeats
    included), how many `video.audio.ready` requests come out: the video
    side emits one when the audio handler already ran, the audio side when
    the status updater already ran. Both arrival orders pair exactly once,
    while two interleavings pair twice and never. */
module Pipeline {

  import opened Wrappers
  import opened Jobs
  import Processor
  import StatusUpdate
  import Orchestrator
  import AudioHandler
  import CombinerFfmpeg

  /** The fixed context of one job's deliveries: the job as the drainer
      found it, the renderer's report (the renderer is outside the model),
      the outcomes of the audio handler's calls, and the clock. */
  datatype Scene = Scene(job: Job, videoReport: Event, audioCalls: AudioHandler.AudioCalls, now: string)

  /** The user id the drainer puts on its requests. */
  function Owner(job: Job): string {
    job.user_id.GetOr("unknown")
  }

  /** A well-formed scene: an audio job with an id and an owner, a report of
      a rendered video for it by the same owner, and an audio run whose
      calls all succeed with a usable URL. */
  predicate ValidScene(sc: Scene) {
    && sc.job.jobId != "" && Owner(sc.job) != "" && WantsAudio(sc.job)
    && sc.videoReport.detailType == Orchestrator.VideoRendered
    && sc.videoReport.detail.jobId == Some(sc.job.jobId)
    && sc.videoReport.detail.userId == Some(Owner(sc.job))
    && Present(sc.videoReport.detail.videoUrl)
    && AudioHandler.Produces(sc.audioCalls) && sc.audioCalls.record.Ok? && sc.audioCalls.publishRendered.Ok?
  }

  function VideoUrl(sc: Scene): string
    requires ValidScene(sc)
  {
    sc.videoReport.detail.videoUrl.value
  }

  function AudioUrl(sc: Scene): string
    requires ValidScene(sc)
  {
    AudioHandler.ExtractAudioUrl(sc.audioCalls.provider.result).value
  }

  /** The request the audio handler receives: the drainer's audio event. */
  function AudioRequest(sc: Scene): Detail {
    Processor.AudioEvent(sc.job, sc.now).detail
  }

  /** The `audio.rendered` event of a successful audio run. */
  function AudioReport(sc: Scene): Event
    requires ValidScene(sc)
  {
    AudioHandler.RenderedEvent(sc.job.jobId, Owner(sc.job), AudioUrl(sc), Processor.AudioModel, sc.now)
  }

  /** The pairing request both sides are expected to produce. */
  function Ready(sc: Scene): Event
    requires ValidScene(sc)
  {
    Orchestrator.ReadyEvent(sc.job.jobId, Some(Owner(sc.job)), Some(VideoUrl(sc)), Some(AudioUrl(sc)), sc.now)
  }

  /** The four deliveries. */
  datatype Delivery = UpdateStatus | OrchestrateVideo | GenerateAudio | OrchestrateAudio

  /** One delivery handled against the table, with every table and bus call
      of the status updater and the orchestrator succeeding. */
  function Deliver(store: Store, x: Delivery, sc: Scene): Outcome
    requires ValidScene(sc)
  {
    match x
    case UpdateStatus => StatusUpdate.HandleInvocation(store, StatusUpdate.Direct(sc.videoReport), [], sc.now)
    case OrchestrateVideo => Orchestrator.Orchestrate(store, sc.videoReport, Ok, Ok, Ok, sc.now)
    case GenerateAudio => AudioHandler.HandleAudio(store, AudioRequest(sc), sc.audioCalls, sc.now)
    case OrchestrateAudio => Orchestrator.Orchestrate(store, AudioReport(sc), Ok, Ok, Ok, sc.now)
  }

  /** The table after a run and the pairing requests the orchestrator
      published, in order. */
  datatype World = World(store: Store, readies: seq<Event>)

  function Run(store: Store, xs: seq<Delivery>, sc: Scene): World
    requires ValidScene(sc)
    decreases |xs|
  {
    if |xs| == 0 then World(store, [])
    else
      var n := |xs| - 1;
      var w := Run(store, xs[..n], sc);
      var o := Deliver(w.store, xs[n], sc);
      var paired := if xs[n] in {OrchestrateVideo, OrchestrateAudio} then o.events else [];
      World(o.store, w.readies + paired)
  }

  /** How many pairing requests a run is expected to publish: one for each
      video-side delivery after an audio run, and one for each audio-side
      delivery after a status update. */
  function Expected(xs: seq<Delivery>): nat
    decreases |xs|
  {
    if |xs| == 0 then 0
    else
      var n := |xs| - 1;
      var prior := xs[..n];
      Expected(prior)
        + (if (xs[n] == OrchestrateVideo && GenerateAudio in prior)
              || (xs[n] == OrchestrateAudio && UpdateStatus in prior) then 1 else 0)
  }

  /** What the table says about the job: its video is COMPLETED with the
      reported URL exactly when the status updater ran, and its audio is
      COMPLETED with the generated URL exactly when the audio handler ran. */
  predicate Tracks(store: Store, sc: Scene, videoDone: bool, audioDone: bool)
    requires ValidScene(sc)
  {
    var id := sc.job.jobId;
    && id in store && WantsAudio(store[id])
    && (videoDone ==> store[id].status == Some(COMPLETED) && store[id].outputUrl == Some(VideoUrl(sc)))
    && (!videoDone ==> store[id].status != Some(COMPLETED))
    && (audioDone ==> store[id].audioStatus == Some(COMPLETED) && store[id].audioUrl == Some(AudioUrl(sc)))
    && (!audioDone ==> store[id].audioStatus != Some(COMPLETED))
  }

  lemma UpdateStatusStep(store: Store, sc: Scene, v: bool, a: bool)
    requires ValidScene(sc) && Tracks(store, sc, v, a)
    ensures Tracks(Deliver(store, UpdateStatus, sc).store, sc, true, a)
  {
    var ev := sc.videoReport;
    assert StatusUpdate.RenderedUrl(ev.detail) == ev.detail.videoUrl;
  }

  lemma GenerateAudioStep(store: Store, sc: Scene, v: bool, a: bool)
    requires ValidScene(sc) && Tracks(store, sc, v, a)
    ensures Tracks(Deliver(store, GenerateAudio, sc).store, sc, v, true)
  {
    var id := sc.job.jobId;
    var o := Deliver(store, GenerateAudio, sc);
    AudioHandler.HandleAudioWritesOnlyAudio(store, AudioRequest(sc), sc.audioCalls, sc.now);
    assert AudioHandler.AudioFieldsOnly(store[id], o.store[id]);
  }

  /** The video side pairs exactly when the audio run is recorded. */
  lemma OrchestrateVideoStep(store: Store, sc: Scene, v: bool, a: bool)
    requires ValidScene(sc) && Tracks(store, sc, v, a)
    ensures var o := Deliver(store, OrchestrateVideo, sc);
            o.store == store && o.events == if a then [Ready(sc)] else []
  {
  }

  /** The audio side pairs exactly when the status update is recorded. */
  lemma OrchestrateAudioStep(store: Store, sc: Scene, v: bool, a: bool)
    requires ValidScene(sc) && Tracks(store, sc, v, a)
    ensures var o := Deliver(store, OrchestrateAudio, sc);
            o.store == store && o.events == if v then [Ready(sc)] else []
  {
  }

  /** The composition theorem: whatever the order of deliveries, the table
      tracks which handlers ran, and the orchestrator published exactly the
      expected number of pairing requests, each for the reported video and
      the generated audio. */
  lemma {:induction false} RunPairs(store: Store, xs: seq<Delivery>, sc: Scene)
    requires ValidScene(sc) && Tracks(store, sc, false, false)
    ensures var w := Run(store, xs, sc);
            && Tracks(w.store, sc, UpdateStatus in xs, GenerateAudio in xs)
            && |w.readies| == Expected(xs)
            && forall e :: e in w.readies ==> e == Ready(sc)
    decreases |xs|
  {
    if |xs| > 0 {
      var n := |xs| - 1;
      var prior := xs[..n];
      assert xs == prior + [xs[n]];
      RunPairs(store, prior, sc);
      var w := Run(store, prior, sc);
      var v := UpdateStatus in prior;
      var a := GenerateAudio in prior;
      match xs[n]
      case UpdateStatus => UpdateStatusStep(w.store, sc, v, a);
      case GenerateAudio => GenerateAudioStep(w.store, sc, v, a);
      case OrchestrateVideo => OrchestrateVideoStep(w.store, sc, v, a);
      case OrchestrateAudio => OrchestrateAudioStep(w.store, sc, v, a);
    }
  }

  /** The drainer leaves a fresh audio job ready for pairing: PROCESSING,
      audio not done, both requests published, video first. */
  lemma DispatchStartsPairing(store: Store, sc: Scene)
    requires ValidScene(sc)
    requires sc.job.jobId in store && store[sc.job.jobId] == sc.job && sc.job.audioStatus.None?
    ensures var r := Processor.ProcessQueued(store, Some([sc.job]), [], sc.now);
            && Tracks(r.outcome.store, sc, false, false)
            && r.outcome.events == [Processor.VideoEvent(sc.job, sc.now), Processor.AudioEvent(sc.job, sc.now)]
  {
    var start := Processor.Drain(store, [], 0, 0);
    Processor.DrainStep(start, [sc.job], [], sc.now);
    assert [sc.job][..0] == [];
  }

  /** A sequence of copies of one event is determined by its length. */
  lemma Uniform(s: seq<Event>, e: Event)
    requires forall x :: x in s ==> x == e
    ensures |s| == 0 ==> s == []
    ensures |s| == 1 ==> s == [e]
    ensures |s| == 2 ==> s == [e, e]
  {
    if |s| >= 1 { assert s[0] in s; }
    if |s| >= 2 { assert s[1] in s; }
  }

  /** Video report first: the status update, the video side, then the audio
      run and the audio side yield one pairing request. */
  lemma VideoFirstPairsOnce(store: Store, sc: Scene)
    requires ValidScene(sc) && Tracks(store, sc, false, false)
    ensures Run(store, [UpdateStatus, OrchestrateVideo, GenerateAudio, OrchestrateAudio], sc).readies == [Ready(sc)]
  {
    RunPairs(store, [UpdateStatus, OrchestrateVideo, GenerateAudio, OrchestrateAudio], sc);
    ExpectedVideoFirstPairsOnce();
    Uniform(Run(store, [UpdateStatus, OrchestrateVideo, GenerateAudio, OrchestrateAudio], sc).readies, Ready(sc));
  }

  lemma ExpectedVideoFirstPairsOnce()
    ensures Expected([UpdateStatus, OrchestrateVideo, GenerateAudio, OrchestrateAudio]) == 1
  {
    assert [UpdateStatus][..0] == [];
    assert [UpdateStatus, OrchestrateVideo][..1] == [UpdateStatus];
    assert [UpdateStatus, OrchestrateVideo, GenerateAudio][..2] == [UpdateStatus, OrchestrateVideo];
    assert [UpdateStatus, OrchestrateVideo, GenerateAudio, OrchestrateAudio][..3] == [UpdateStatus, OrchestrateVideo, GenerateAudio];
  }

  /** Audio first: the audio run and the audio side, then the status update
      and the video side yield one pairing request. */
  lemma AudioFirstPairsOnce(store: Store, sc: Scene)
    requires ValidScene(sc) && Tracks(store, sc, false, false)
    ensures Run(store, [GenerateAudio, OrchestrateAudio, UpdateStatus, OrchestrateVideo], sc).readies == [Ready(sc)]
  {
    RunPairs(store, [GenerateAudio, OrchestrateAudio, UpdateStatus, OrchestrateVideo], sc);
    ExpectedAudioFirstPairsOnce();
    Uniform(Run(store, [GenerateAudio, OrchestrateAudio, UpdateStatus, OrchestrateVideo], sc).readies, Ready(sc));
  }

  lemma ExpectedAudioFirstPairsOnce()
    ensures Expected([GenerateAudio, OrchestrateAudio, UpdateStatus, OrchestrateVideo]) == 1
  {
    assert [GenerateAudio][..0] == [];
    assert [GenerateAudio, OrchestrateAudio][..1] == [GenerateAudio];
    assert [GenerateAudio, OrchestrateAudio, UpdateStatus][..2] == [GenerateAudio, OrchestrateAudio];
    assert [GenerateAudio, OrchestrateAudio, UpdateStatus, OrchestrateVideo][..3] == [GenerateAudio, OrchestrateAudio, UpdateStatus];
  }

  /** The audio run completing between the status update and the video side:
      both sides see the other half done, and the combiner is asked twice. */
  lemma InterleavingPairsTwice(store: Store, sc: Scene)
    requires ValidScene(sc) && Tracks(store, sc, false, false)
    ensures Run(store, [UpdateStatus, GenerateAudio, OrchestrateAudio, OrchestrateVideo], sc).readies
            == [Ready(sc), Ready(sc)]
  {
    RunPairs(store, [UpdateStatus, GenerateAudio, OrchestrateAudio, OrchestrateVideo], sc);
    ExpectedInterleavingPairsTwice();
    Uniform(Run(store, [UpdateStatus, GenerateAudio, OrchestrateAudio, OrchestrateVideo], sc).readies, Ready(sc));
  }

  lemma ExpectedInterleavingPairsTwice()
    ensures Expected([UpdateStatus, GenerateAudio, OrchestrateAudio, OrchestrateVideo]) == 2
  {
    assert [UpdateStatus][..0] == [];
    assert [UpdateStatus, GenerateAudio][..1] == [UpdateStatus];
    assert [UpdateStatus, GenerateAudio, OrchestrateAudio][..2] == [UpdateStatus, GenerateAudio];
    assert [UpdateStatus, GenerateAudio, OrchestrateAudio, OrchestrateVideo][..3] == [UpdateStatus, GenerateAudio, OrchestrateAudio];
  }

  /** The video side running before the audio run and the audio side before
      the status update: neither side sees the other half, and the job is
      never paired. */
  lemma InterleavingNeverPairs(store: Store, sc: Scene)
    requires ValidScene(sc) && Tracks(store, sc, false, false)
    ensures Run(store, [OrchestrateVideo, GenerateAudio, OrchestrateAudio, UpdateStatus], sc).readies == []
  {
    RunPairs(store, [OrchestrateVideo, GenerateAudio, OrchestrateAudio, UpdateStatus], sc);
    ExpectedInterleavingNeverPairs();
    Uniform(Run(store, [OrchestrateVideo, GenerateAudio, OrchestrateAudio, UpdateStatus], sc).readies, Ready(sc));
  }

  lemma ExpectedInterleavingNeverPairs()
    ensures Expected([OrchestrateVideo, GenerateAudio, OrchestrateAudio, UpdateStatus]) == 0
  {
    assert [OrchestrateVideo][..0] == [];
    assert [OrchestrateVideo, GenerateAudio][..1] == [OrchestrateVideo];
    assert [OrchestrateVideo, GenerateAudio, OrchestrateAudio][..2] == [OrchestrateVideo, GenerateAudio];
    assert [OrchestrateVideo, GenerateAudio, OrchestrateAudio, UpdateStatus][..3] == [OrchestrateVideo, GenerateAudio, OrchestrateAudio];
  }

  /** An audio job reads COMPLETED as soon as its video report is handled,
      before any audio or combination exists. */
  lemma CompletedBeforeAudio(store: Store, sc: Scene)
    requires ValidScene(sc) && Tracks(store, sc, false, false)
    ensures var w := Run(store, [UpdateStatus], sc);
            && w.store[sc.job.jobId].status == Some(COMPLETED)
            && w.store[sc.job.jobId].audioStatus != Some(COMPLETED)
  {
    RunPairs(store, [UpdateStatus], sc);
  }

  /** The pairing request handed to the ffmpeg combiner with every call
      succeeding: the job ends COMPLETED with its combined URL and one
      `combined.video.ready`. */
  lemma CombinePaired(store: Store, sc: Scene)
    requires ValidScene(sc)
    ensures var c := CombinerFfmpeg.FfmpegCalls(Ok, Ok, Ok, Ok, Ok, Ok, Ok);
            var o := CombinerFfmpeg.HandleFfmpeg(store, Ready(sc).detail, c, sc.now);
            var id := sc.job.jobId;
            && o.code == 200 && id in o.store
            && o.store[id].status == Some(COMPLETED)
            && o.store[id].combinedUrl == Some(CombinerFfmpeg.CombinedUrl(id))
            && |o.events| == 1
  {
  }
}
