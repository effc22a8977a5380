/** The shared vocabulary of the handlers: the job item as the jobs table
    stores it, the table itself, the detail of a bus event, and what one
    handler invocation produces.

    Attribute names are kept exactly as the handlers write them, including
    the ones that disagree between files: `status` (written by the pipeline)
    versus `jobStatus` (read by the newer admin console), `user_id` versus
    `userId`, `combinationStatus`/`combinationError` (ffmpeg combiner) versus
    `combinedStatus`/`combinedError` (the other combiners), and `outputUrl`,
    which holds the video URL. An absent attribute and one stored as null
    are both `None`. */
module Jobs {

  import opened Wrappers

  /** The `feature` object of a job: whether audio was requested (the
      truthiness of `feature.audio`) and the requested audio tier. */
  datatype Feature = Feature(audio: bool, audioTier: Option<string>)

  datatype Job = Job(
    jobId: string,
    user_id: Option<string>,
    userId: Option<string>,
    prompt: Option<string>,
    duration_seconds: Option<int>,
    seconds: Option<int>,
    resolution: Option<string>,
    tier: Option<string>,
    feature: Option<Feature>,
    status: Option<string>,
    jobStatus: Option<string>,
    createdAt: Option<string>,
    updatedAt: Option<string>,
    completedAt: Option<string>,
    outputUrl: Option<string>,
    error_message: Option<string>,
    errorMessage: Option<string>,
    audioStatus: Option<string>,
    audioUrl: Option<string>,
    audioError: Option<string>,
    audioStartTime: Option<string>,
    audioCompletedTime: Option<string>,
    audioFailedTime: Option<string>,
    combinationStatus: Option<string>,
    combinationError: Option<string>,
    combinedUrl: Option<string>,
    hasSeparateTracks: Option<bool>,
    combinedStatus: Option<string>,
    combinedError: Option<string>,
    combinedStartTime: Option<string>,
    combinedCompletedTime: Option<string>,
    combinedFailedTime: Option<string>,
    actual_duration: Option<int>,
    file_size: Option<int>,
    error: Option<string>,
    failedAt: Option<string>,
    creditsUsed: Option<int>)

  /** An item holding nothing but its key. */
  function Blank(id: string): (j: Job)
    ensures j.jobId == id && j.status.None? && j.outputUrl.None?
  {
    Job(id, None, None, None, None, None, None, None, None, None, None, None, None, None, None,
        None, None, None, None, None, None, None, None, None, None, None, None, None, None, None,
        None, None, None, None, None, None, None)
  }

  /** The jobs table, keyed by `jobId`. */
  type Store = map<string, Job>

  /** The item an update of key `id` starts from: the table's update is an
      upsert, so a missing key starts from an item holding only the key. */
  function Stored(store: Store, id: string): (j: Job)
    ensures id in store ==> j == store[id]
    ensures id !in store ==> j == Blank(id)
  {
    if id in store then store[id] else Blank(id)
  }

  /** Whether the job asked for audio: `job.get('feature', {}).get('audio')`. */
  predicate WantsAudio(j: Job) {
    j.feature.Some? && j.feature.value.audio
  }

  /** Generation parameters carried by a generation-request event. */
  datatype Params =
    | VideoParams(prompt: string, num_frames: int, width: Option<int>, height: Option<int>,
                  num_inference_steps: int, seed: int)
    | AudioParams(prompt: string, seconds: int)

  /** The `detail` object of a bus event; each event type fills some fields. */
  datatype Detail = Detail(
    jobId: Option<string>,
    userId: Option<string>,
    provider: Option<string>,
    model: Option<string>,
    parameters: Option<Params>,
    videoUrl: Option<string>,
    audioUrl: Option<string>,
    outputUrl: Option<string>,
    combinedUrl: Option<string>,
    originalVideoUrl: Option<string>,
    originalAudioUrl: Option<string>,
    error: Option<string>,
    errorMessage: Option<string>,
    duration: Option<int>,
    fileSize: Option<int>,
    separateTracks: Option<bool>,
    timestamp: Option<string>)

  function EmptyDetail(): (d: Detail)
    ensures d.jobId.None? && d.userId.None?
  {
    Detail(None, None, None, None, None, None, None, None, None, None, None, None, None, None,
           None, None, None)
  }

  /** One entry put on the event bus. */
  datatype Event = Event(source: string, detailType: string, detail: Detail)

  /** What one handler invocation leaves behind: the table after its writes,
      the events it published, in order, and the status code it returned. */
  datatype Outcome = Outcome(store: Store, events: seq<Event>, code: int)

  /** Attempt one write: a raising write leaves the table as it was. */
  function Attempt(store: Store, id: string, updated: Job, call: Call): Store {
    if call.Ok? then store[id := updated] else store
  }

  /** Attempt one publish: a failing publish delivers nothing. */
  function Publish(events: seq<Event>, e: Event, call: Call): seq<Event> {
    if call.Ok? then events + [e] else events
  }

  /** Status strings the handlers write. */
  const QUEUED: string := "QUEUED"
  const PROCESSING: string := "PROCESSING"
  const COMPLETED: string := "COMPLETED"
  const FAILED: string := "FAILED"
}
