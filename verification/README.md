# video-gen job pipeline — a Dafny model

This project models the serverless back end of the video-gen service. Users
submit text-to-video jobs. A processor sends them to the fal.ai provider.
Jobs that want audio get a second, audio half. An orchestrator pairs the
video and audio halves, and a combiner merges them. Read-only and admin
endpoints let users and operators see the jobs and the credit balances.

Each Lambda handler is a pure Dafny function or method.
- **State.** The jobs table is `Store = map<string, Job>`. A `Job` is a record of optional fields, named as the Python code names them.
- **Upserts.** DynamoDB `update_item` is an upsert: it starts from the stored item, or from a blank item holding only the key (`Jobs.Stored`).
- **External calls.** Table writes, EventBridge publishes, provider calls and table reads are inputs. Each is either `Ok` or `Raise(message)`, or a boolean such as `readFails`. Every path through the handler's `try`/`except` blocks can therefore be stated and proved.
- **Results.** A handler returns the new store, the events it published, and the HTTP or status code it answers with.
- **Python semantics, modelled explicitly:**
  - truthiness (`Wrappers.Present`);
  - `int()` parsing (`Text.ParseInt`);
  - list slicing (`Listing.Take`, `Listing.PageOf`);
  - the newest-first sort on ISO timestamps (`Listing.SortNewestFirst`);
  - `int()` truncation toward zero (`Text.Trunc`);
  - the substring tests that turn an exception's text into a status code.

The modules follow the source files:

| module | models |
|---|---|
| `Tiers` | the model-tier table and `validate_and_default_tier` |
| `Auth` | JWT payload extraction and the admin console's claim lookup |
| `Submission` | `POST /v1/jobs`: validation and storage of a QUEUED job |
| `Processor` | the queue processor: fal.ai parameters, `video.job.submitted`/`audio.job.submitted` events, failure marking |
| `Orchestrator` | pairing of `video.rendered` / `audio.rendered` into `video.ready.for.combination` |
| `AudioHandler` | the audio generator |
| `StatusUpdate` | the status updater for rendered and failed events |
| `Combining`, `CombinerFfmpeg`, `CombinerV2`, `CombinerLambda`, `CombinerCloud` | the four combiner variants and what they share |
| `Pipeline` | the handlers run one after another on one job; arrival orders of the two halves |
| `ListJobs`, `Listing`, `Counting`, `Text` | the job list with paging and sorting, tallies, string helpers |
| `GetJob` | `GET /v1/jobs/{id}` |
| `AdminJobs` | the temp-cors admin job list with statistics |
| `AdminConsole` | the admin console: job list, detail, related jobs, statistics |
| `CreditsAdmin` | the credits admin endpoint: GET and PUT of a user's balance |

Several behaviours of the code are easy to miss when reading only its docstrings and messages. The model follows the code:
- **Orchestrator writes.** The orchestrator's docstring (`job-orchestrator-lambda.py:20`) speaks only of waiting for video and audio before combining. It also writes status `COMPLETED` and `completedAt` for a video-only job on `video.rendered` (lines 56-66; `Orchestrator.Orchestrate`).
- **COMPLETED before the combiner.** The status updater sets `COMPLETED` on every `video.rendered` (`job-status-update-lambda.py:108-118`), audio jobs included. So a job wanting audio is `COMPLETED` before its audio exists (`Pipeline.CompletedBeforeAudio`).
- **Pairing count.** The orchestrator emits `video.audio.ready` when it reads the other track as done (`job-orchestrator-lambda.py:68-82`). For either sequential arrival order that is once per job (`Pipeline.VideoFirstPairsOnce`, `Pipeline.AudioFirstPairsOnce`). Two interleavings of the read and the write pair twice or never (`Pipeline.InterleavingPairsTwice`, `Pipeline.InterleavingNeverPairs`).
- **Cloud combiner failure path.** The cloud combiner never downgrades a job to `FAILED` as written, but only because its `FAILED` update is refused by the table (`CombinerCloud.HandleCloudAsWritten`). With that update behaving as intended, a failing publish would downgrade a completed job (`CombinerCloud.PublishFailureDowngrades`).
- **Never left COMBINING.** The ffmpeg combiner moves every job out of `COMBINING` only when its error-path writes succeed (`CombinerFfmpeg.FfmpegTerminal`).
- **List-jobs errors.** A non-GET method and a non-numeric page both answer 500, not 400. The messages reach the generic `except`, and Python's "invalid literal" is lower-case (`ListJobs.MethodRefusal`, `ListJobs.IntErrorCode`).
- **Temp-cors admin list.** Its preflight answers 200, it has no admin check, and it refuses an undecodable token with 401. The user handlers instead fall back to a test user.
- **Admin console.** The console ignores the HTTP method.
- **Credits PUT.** A JSON boolean as `credits` answers 500 (`CreditsAdmin.BooleanCreditsFail`).
- **Job submission.** An invocation whose `body` is null (Python's `None`) answers 500: `json.loads(None)` raises a TypeError that only the generic `except` catches (`Submission.SubmitBody`). A body whose text is `null` answers 400, because `validate_job_request` re-raises the TypeError as "Invalid request format" (`jobs-submit-lambda.py:210-211`).

## Model

| member | source | states |
|---|---|---|
| Tiers.IsValidModelTierExactly | admin-vanilla/temp-cors-handler/shared_types.py:32-34 | a tier name is accepted exactly when it is one of the five tiers or the two legacy aliases |
| Tiers.ValidateAndDefaultTier | admin-vanilla/temp-cors-handler/shared_types.py:36-57 | the result is always a valid tier: a missing or unknown tier becomes the default, an alias maps to its tier, a valid tier is kept |
| Tiers.ValidateAndDefaultTierIdempotent | admin-vanilla/temp-cors-handler/shared_types.py:36-57 | validating a validated tier again gives the same tier |
| Tiers.TablesCoverValidTiers | admin-vanilla/temp-cors-handler/shared_types.py:21-30 | the model table and the credit table are keyed by exactly the valid tiers, credits are positive, and every alias maps to a valid tier |
| Auth.RemoveAll | admin-vanilla/temp-cors-handler/jobs-submit-lambda.py:128 | removing every `Bearer ` never lengthens the header and leaves a header without it unchanged |
| Auth.RemovePrefix | admin-vanilla/temp-cors-handler/jobs-submit-lambda.py:124-128 | `Bearer ` followed by a token that holds no further `Bearer ` gives back exactly the token |
| Auth.PayloadSegment | admin-vanilla/temp-cors-handler/jobs-submit-lambda.py:138 | a payload segment exists exactly when the token holds a dot, and never contains a dot |
| Auth.TokenPayload | admin-vanilla/temp-cors-handler/jobs-submit-lambda.py:137-138 | the payload segment of `header.payload.signature` (parts without dots) is `payload` |
| Auth.PadPayload | admin-vanilla/temp-cors-handler/jobs-submit-lambda.py:138-142 | padding appends fewer than four `=` so that the length is a multiple of four, keeping the payload as a prefix |
| Auth.PadPayloadIdempotent | admin-vanilla/temp-cors-handler/jobs-submit-lambda.py:138-142 | padding an already padded payload changes nothing |
| Auth.UserIdFromToken | admin-vanilla/temp-cors-handler/jobs-submit-lambda.py:118-163 | without a header starting with `Bearer ` there is no caller; a token without a payload segment or undecodable gives the test user where the handler falls back and none otherwise; a decoded token gives `sub`, else `username`, else none; a caller id is never empty |
| Auth.BearerIdentity | admin-vanilla/temp-cors-handler/jobs-submit-lambda.py:118-151 | a header `Bearer header.payload.signature` whose payload decodes to claims names their `sub`, else their `username` |
| Auth.BearerWithoutPayload | admin-vanilla/temp-cors-handler/jobs-submit-lambda.py:136-163 | a bearer token without a dot names the test user where the handler falls back, and nobody elsewhere |
| Auth.ResolveClaims | temp-lambda/admin-jobs-lambda.py:39-46 | non-empty authorizer claims are used, otherwise the JWT claims, otherwise none |
| Auth.Subject | temp-lambda/admin-jobs-lambda.py:48-50 | the caller is the non-empty `sub` claim; there is none when it is missing or empty |
| Submission.CheckPrompt | admin-vanilla/temp-cors-handler/jobs-submit-lambda.py:174-179 | a prompt passes exactly when it is a string whose whitespace-stripped text is non-empty and at most 1000 characters, and the stripped text is what is kept |
| Submission.CheckSeconds | admin-vanilla/temp-cors-handler/jobs-submit-lambda.py:181-183 | seconds pass exactly when `int()` reads them (an integer, a float truncated toward zero, a boolean, or a numeric string) and they lie between 2 and 10 inclusive |
| Submission.FloatSeconds | admin-vanilla/temp-cors-handler/jobs-submit-lambda.py:181-183 | a float duration passes exactly when it lies in [2, 11), and its truncation is kept |
| Submission.CheckResolution | admin-vanilla/temp-cors-handler/jobs-submit-lambda.py:185-191 | only "720p" passes; "1080p" and "4k" are refused as unsupported and anything else as invalid |
| Submission.ValidateJobRequest | admin-vanilla/temp-cors-handler/jobs-submit-lambda.py:165-212 | a body is accepted exactly when it has a non-blank prompt of at most 1000 characters, seconds that `int()` reads as 2 to 10 (floats truncated), and resolution 720p; the first missing key is named; 1080p and 4k get the unsupported-resolution error |
| Submission.CreateJob | admin-vanilla/temp-cors-handler/jobs-submit-lambda.py:238-264 | the new job is QUEUED, owned by the caller, and carries the request's prompt, duration and tier |
| Submission.GenericErrorCode | admin-vanilla/temp-cors-handler/jobs-submit-lambda.py:66-73 | the generic `except` answers 500 exactly when the message names none of Unauthorized, Insufficient credits, Invalid or Missing |
| Submission.Submit | admin-vanilla/temp-cors-handler/jobs-submit-lambda.py:14-73 | 201 exactly when a POST from a caller has an acceptable body and the write succeeds, storing the one new job; any other answer leaves the table unchanged; nothing is published; a method other than POST or OPTIONS answers 400 |
| Submission.SubmitBody | admin-vanilla/temp-cors-handler/jobs-submit-lambda.py:44-60 | once the caller is known: 201 exactly when the body decodes to an acceptable request and the write succeeds; a missing body answers 400, a null body 500 and the text `null` 400; nothing else is written |
| Submission.Create | admin-vanilla/temp-cors-handler/jobs-submit-lambda.py:50-60 | an unacceptable request answers 400; an acceptable one stores the new job exactly when the write succeeds |
| Processor.GetQueuedJobs | admin-vanilla/temp-cors-handler/job-processor-lambda.py:97-120 | the batch is the scan's first items up to the batch limit, and empty when the scan fails |
| Processor.DetermineFalModel | admin-vanilla/temp-cors-handler/job-processor-lambda.py:258-272 | the provider model is the one the validated tier maps to |
| Processor.FrameSize | admin-vanilla/temp-cors-handler/job-processor-lambda.py:285-292 | 720p is 768 by 512, 1080p 1024 by 768 and 4k 1280 by 768; other resolutions send no frame size |
| Processor.BuildFalParameters | admin-vanilla/temp-cors-handler/job-processor-lambda.py:274-299 | the video request carries the prompt, frames for the job's duration at the frame rate, the resolution's frame size when it has one, 25 inference steps and seed 42 |
| Processor.BuildAudioParameters | admin-vanilla/temp-cors-handler/job-processor-lambda.py:316-329 | the audio request lasts the job's duration and its prompt is the video prompt followed by exactly the ambient-sounds suffix |
| Processor.VideoEvent | admin-vanilla/temp-cors-handler/job-processor-lambda.py:166-193 | the video request is a `video.job.submitted` event from the submitter naming the job, its user (`unknown` when absent), provider `fal`, the tier's model and the video parameters |
| Processor.AudioEvent | admin-vanilla/temp-cors-handler/job-processor-lambda.py:207-244 | the audio request is an `audio.job.submitted` event from the submitter naming the job, its user (`unknown` when absent), provider `fal`, the audio model and the audio parameters |
| Processor.FailJob | admin-vanilla/temp-cors-handler/job-processor-lambda.py:68-76 | a failure is counted once and, when its write succeeds, marks only that job FAILED with the non-empty error text |
| Processor.ProcessJob | admin-vanilla/temp-cors-handler/job-processor-lambda.py:54-76 | one job is counted once, only its key is written, and at most its two requests are appended; with no fault it ends PROCESSING with both requests out |
| Processor.DrainSpec | admin-vanilla/temp-cors-handler/job-processor-lambda.py:50-78 | over a batch every job is counted once as processed or failed, and at most two requests per job are appended |
| Processor.IsolatedJob | admin-vanilla/temp-cors-handler/job-processor-lambda.py:54-76 | each job has its own `try`: a job whose own calls succeed, under a key no later job shares, ends PROCESSING with its requests published right after those of the jobs before it, whatever faults the other jobs meet |
| Processor.IsolatedLast | admin-vanilla/temp-cors-handler/job-processor-lambda.py:54-66 | the last job of a run, fault-free, ends PROCESSING with exactly its requests appended |
| Processor.KeepsFrom | admin-vanilla/temp-cors-handler/job-processor-lambda.py:54-76 | later jobs under other keys leave an item PROCESSING and the requests already published |
| Processor.LaterJobKeeps | admin-vanilla/temp-cors-handler/job-processor-lambda.py:54-76 | one more job under another key leaves an item PROCESSING and the requests already published |
| Processor.OwnJobSends | admin-vanilla/temp-cors-handler/job-processor-lambda.py:55-66 | a fault-free iteration marks its job PROCESSING and appends exactly its requests |
| Processor.OtherJobKeeps | admin-vanilla/temp-cors-handler/job-processor-lambda.py:54-76 | an iteration for another key leaves a PROCESSING item PROCESSING and keeps the published requests |
| Processor.DrainFrame | admin-vanilla/temp-cors-handler/job-processor-lambda.py:54-76 | a run over a batch changes no job outside it |
| Processor.DrainEventsFromBatch | admin-vanilla/temp-cors-handler/job-processor-lambda.py:149-160 | every request a run publishes belongs to a job of the batch |
| Processor.DrainQueue | admin-vanilla/temp-cors-handler/job-processor-lambda.py:50-78 | the loop computes the reference run, and its processed and failed counts add up to the batch size |
| Processor.ProcessQueued | admin-vanilla/temp-cors-handler/job-processor-lambda.py:38-88 | the run answers 200, counts every found job as processed or failed, changes nothing when none is found, and leaves every other job alone |
| Processor.FaultFreeRunEvents | admin-vanilla/temp-cors-handler/job-processor-lambda.py:149-160 | when no call fails, every job is processed and the requests are each job's video request, plus its audio request when it wants audio, in batch order |
| Processor.FaultFreeRunStatus | admin-vanilla/temp-cors-handler/job-processor-lambda.py:54-66 | when no call fails, every batch job ends PROCESSING |
| Processor.AudioPublishFailureAfterVideo | admin-vanilla/temp-cors-handler/job-processor-lambda.py:154-164 | a failing audio publish counts the job failed and marks it FAILED although its video request was already published |
| Orchestrator.ReadyEvent | admin-vanilla/temp-cors-handler/job-orchestrator-lambda.py:101-117 | the ready event comes from the orchestrator and carries the job id, the owner and both urls |
| Orchestrator.Pairing | admin-vanilla/temp-cors-handler/job-orchestrator-lambda.py:53-81 | the arriving half's url comes from the event and the other half's from the stored job |
| Orchestrator.Orchestrate | admin-vanilla/temp-cors-handler/job-orchestrator-lambda.py:19-99 | no job id answers 400, a failed read 500, an unknown job 404; one ready event exactly when the other half is done and the publish succeeds; the only write completes a video-only job on video.rendered, and it happens whenever that write succeeds; a raising completion write or ready publish answers 500 with nothing changed, and those are the only 500s after a successful read |
| AudioHandler.Endpoint | admin-vanilla/temp-cors-handler/audio-handler-lambda.py:72-75 | the endpoint lies under the provider base and the model namespace, and a namespaced model is used as it is |
| AudioHandler.EndpointIgnoresNamespace | admin-vanilla/temp-cors-handler/audio-handler-lambda.py:72-75 | a model with or without its namespace prefix gives the same endpoint |
| AudioHandler.ExtractAudioUrl | admin-vanilla/temp-cors-handler/audio-handler-lambda.py:91-101 | the url is looked up in order: a present `audio_url` key, then `url`, then `output` (`url`, or `audio_url` when that is falsy), then `audio.url`, then `audio_file.url`; with none of these shapes there is no url |
| AudioHandler.Fail | admin-vanilla/temp-cors-handler/audio-handler-lambda.py:146-189 | a failure answers 500, marks the audio FAILED with the error when its write succeeds, publishes `audio.failed` when it can, and touches only audio fields |
| AudioHandler.HandleAudio | admin-vanilla/temp-cors-handler/audio-handler-lambda.py:38-189 | no job or user id answers 400 without effect; 200 exactly when every step succeeds, with the url stored, the audio COMPLETED and one `audio.rendered`; a 500 marks the audio FAILED with the caught error text when that write succeeds, and publishes exactly one `audio.failed` carrying that text when the publish succeeds |
| AudioHandler.Generate | admin-vanilla/temp-cors-handler/audio-handler-lambda.py:82-189 | after the PROCESSING write: 200 exactly when the provider answers 200 with a usable url and both later calls succeed; otherwise the failure path with the first failure's message |
| AudioHandler.RenderedPublishFailureLeavesUrl | admin-vanilla/temp-cors-handler/audio-handler-lambda.py:108-161 | when the rendered publish fails, the url stays stored but the audio is also marked FAILED |
| AudioHandler.HandleAudioWritesOnlyAudio | admin-vanilla/temp-cors-handler/audio-handler-lambda.py:38-189 | the audio handler writes only the audio fields of the event's job |
| AudioHandler.GenerateWritesOnlyAudio | admin-vanilla/temp-cors-handler/audio-handler-lambda.py:82-160 | after the PROCESSING write, the handler writes only the audio fields of the event's job |
| StatusUpdate.RenderedUrl | admin-vanilla/temp-cors-handler/job-status-update-lambda.py:100 | a non-empty `videoUrl` wins, else a non-empty `outputUrl`; with neither there is no url |
| StatusUpdate.FailureText | admin-vanilla/temp-cors-handler/job-status-update-lambda.py:149 | the failure text is the event's `error` when present, else its `errorMessage`, else the default text |
| StatusUpdate.Rendered | admin-vanilla/temp-cors-handler/job-status-update-lambda.py:109-134 | a rendered job is COMPLETED with the new url, duration and size when given, and nothing else changes |
| StatusUpdate.Failed | admin-vanilla/temp-cors-handler/job-status-update-lambda.py:157-167 | a failed job is FAILED with the failure text, and nothing else changes |
| StatusUpdate.ApplyEvent | admin-vanilla/temp-cors-handler/job-status-update-lambda.py:75-94 | rendered and failed events with a job id update exactly that job, and fail exactly when the write raises; other events change nothing |
| StatusUpdate.ApplyEventIdempotent | admin-vanilla/temp-cors-handler/job-status-update-lambda.py:96-167 | applying the same event twice gives the table of applying it once |
| StatusUpdate.StoppedIsFinal | admin-vanilla/temp-cors-handler/job-status-update-lambda.py:50-55 | once a record stops the run, later records change nothing |
| StatusUpdate.HandleRecords | admin-vanilla/temp-cors-handler/job-status-update-lambda.py:28-73 | the loop gives the reference run's table, and 200 exactly when no record stopped it |
| StatusUpdate.HandleInvocation | admin-vanilla/temp-cors-handler/job-status-update-lambda.py:18-55 | an unknown invocation answers 400; a batch answers 200 exactly when no record stops it; a direct event answers 500 without effect when its write fails |
| Combining.AsIssued | admin-vanilla/temp-cors-handler/video-audio-combiner-lambda-v2.py:103 | an update naming the reserved word `status` without an alias raises the reserved-word error; any other keeps its outcome |
| CombinerFfmpeg.CombinedUrlInjective | admin-vanilla/temp-cors-handler/video-audio-combiner-ffmpeg.py:117-130 | different jobs get different combined-video urls |
| CombinerFfmpeg.ResolveVideoUrl | admin-vanilla/temp-cors-handler/video-audio-combiner-ffmpeg.py:40-55 | a non-empty event url wins; else a missing job answers 404, a stored non-empty `outputUrl` is used, and a job without one answers 400 |
| CombinerFfmpeg.Fallback | admin-vanilla/temp-cors-handler/video-audio-combiner-ffmpeg.py:173-228 | a failure answers 500, marks the combination FAILED and the job COMPLETED with separate tracks when those writes succeed, publishes the separate-tracks event only then, and touches only the event's job |
| CombinerFfmpeg.HandleFfmpeg | admin-vanilla/temp-cors-handler/video-audio-combiner-ffmpeg.py:25-228 | incomplete events answer 400 or the video lookup's code without effect; 200 exactly when every step succeeds, with the job COMPLETED, the combined url stored and one ready event; a 500 records the combination FAILED, the job COMPLETED with separate tracks and one `video.audio.separate` carrying the first error, each when its write or publish succeeds; only the event's job is written and never set FAILED |
| CombinerFfmpeg.Combine | admin-vanilla/temp-cors-handler/video-audio-combiner-ffmpeg.py:61-228 | once the video is located: 200 exactly when the COMBINING write, the mux, the recording write and the publish all succeed, then with the job COMPLETED and one ready event; the 500 path as for the handler; only that job is written and its status is never set to anything but COMPLETED |
| CombinerFfmpeg.Mux | admin-vanilla/temp-cors-handler/video-audio-combiner-ffmpeg.py:70-228 | after the COMBINING write: the same answer, effects and frame as `Combine` |
| CombinerFfmpeg.FfmpegTerminal | admin-vanilla/temp-cors-handler/video-audio-combiner-ffmpeg.py:133-200 | when the error-path writes succeed, the job ends COMPLETED and the combination COMPLETED or FAILED, never COMBINING |
| CombinerFfmpeg.ReadyPublishFailure | admin-vanilla/temp-cors-handler/video-audio-combiner-ffmpeg.py:133-217 | a failing ready publish after the url is stored leaves the url, marks the combination FAILED and publishes the separate-tracks event |
| CombinerV2.CombinedVideoUrl | admin-vanilla/temp-cors-handler/video-audio-combiner-lambda-v2.py:143-146 | the url is the non-empty `video.url` when present, otherwise the top-level `url`; a non-object `video` is an error |
| CombinerV2.Fallback | admin-vanilla/temp-cors-handler/video-audio-combiner-lambda-v2.py:188-216 | the fallback answers 200 without events and, when its write succeeds, completes the job with the combination FAILED_FALLBACK_SEPARATE and the error |
| CombinerV2.HandleV2 | admin-vanilla/temp-cors-handler/video-audio-combiner-lambda-v2.py:42-216 | with the updates behaving as intended: an incomplete event answers 400 without effect, everything else 200; a merged answer with every step succeeding leaves the job COMPLETED with the combined url as its output and one ready event; a non-200 provider answer with its write and publish succeeding leaves it COMPLETED with `COMPLETED_SEPARATE_TRACKS` and one `video.audio.separate` event; only the event's job is written |
| CombinerV2.Merge | admin-vanilla/temp-cors-handler/video-audio-combiner-lambda-v2.py:93-216 | after the PROCESSING write the answer is 200 with at most one event; the merged and the separate-tracks completions as for the handler; only the event's job is written |
| CombinerV2.V2Terminal | admin-vanilla/temp-cors-handler/video-audio-combiner-lambda-v2.py:42-216 | with an API key and the fallback write accepted, the job ends COMPLETED with the combination finished, never PROCESSING |
| CombinerV2.V2AsIssued | admin-vanilla/temp-cors-handler/video-audio-combiner-lambda-v2.py:101-202 | as issued, the separate-tracks, record and fallback writes raise and every other call keeps its outcome |
| CombinerV2.HandleV2AsWritten | admin-vanilla/temp-cors-handler/video-audio-combiner-lambda-v2.py:42-216 | as written, nothing is published and the job at most gets combination PROCESSING |
| CombinerV2.V2AsWrittenStuckProcessing | admin-vanilla/temp-cors-handler/video-audio-combiner-lambda-v2.py:95-158 | as written, a successful provider call leaves the combination PROCESSING and the status unchanged with no event; the corrected handler completes the job |
| CombinerLambda.MergedUrlInjective | admin-vanilla/temp-cors-handler/video-audio-combiner-lambda.py:98-113 | different jobs get different merged-video urls |
| CombinerLambda.Fail | admin-vanilla/temp-cors-handler/video-audio-combiner-lambda.py:155-197 | a failure answers 500, marks only the combination fields FAILED when its write succeeds, and publishes `combined.video.failed` when it can |
| CombinerLambda.HandleLambda | admin-vanilla/temp-cors-handler/video-audio-combiner-lambda.py:26-197 | an incomplete event answers 400 without effect; 200 exactly when every step succeeds, with the merged url as output and combined url, the job COMPLETED and one ready event; a 500 publishes at most a failed event |
| CombinerLambda.LambdaTerminal | admin-vanilla/temp-cors-handler/video-audio-combiner-lambda.py:43-168 | when the failure write succeeds, the combination ends COMPLETED or FAILED |
| CombinerLambda.HandleLambdaAsWritten | admin-vanilla/temp-cors-handler/video-audio-combiner-lambda.py:26-197 | as written, a complete event always answers 500 and publishes only failed events |
| CombinerLambda.AsWrittenKeepsUrls | admin-vanilla/temp-cors-handler/video-audio-combiner-lambda.py:116-170 | as written, no job's status, video url or combined url ever changes |
| CombinerLambda.LambdaAsWrittenFails | admin-vanilla/temp-cors-handler/video-audio-combiner-lambda.py:116-125 | as written, a merge in which every call succeeds ends FAILED with the reserved-word error; the corrected handler completes the job |
| CombinerCloud.HandleCloud | admin-vanilla/temp-cors-handler/video-audio-combiner-cloud.py:19-107 | with the FAILED update behaving as intended: an incomplete event answers 400 without effect; 200 exactly when the COMPLETED write and the publish succeed; a 500 marks the job FAILED with the error when that write succeeds; the combined url is never touched |
| CombinerCloud.PublishFailureDowngrades | admin-vanilla/temp-cors-handler/video-audio-combiner-cloud.py:42-96 | with the FAILED update behaving as intended, a failing publish after the COMPLETED write turns the job FAILED while it keeps its separate tracks |
| CombinerCloud.HandleCloudAsWritten | admin-vanilla/temp-cors-handler/video-audio-combiner-cloud.py:19-107 | as written, the answers and events are those of the intended handler, but no job is ever set FAILED and a raising completion write changes nothing |
| CombinerCloud.CloudFailureUnrecorded | admin-vanilla/temp-cors-handler/video-audio-combiner-cloud.py:54-98 | as written, a failing publish answers 500 yet leaves the job COMPLETED with separate tracks and no error; the intended handler records FAILED with the error |
| Pipeline.OrchestrateVideoStep | admin-vanilla/temp-cors-handler/job-orchestrator-lambda.py:53-73 | orchestrating the video report writes nothing and emits the ready event exactly when the audio half is stored |
| Pipeline.OrchestrateAudioStep | admin-vanilla/temp-cors-handler/job-orchestrator-lambda.py:76-83 | orchestrating the audio report writes nothing and emits the ready event exactly when the video half is stored |
| Pipeline.UpdateStatusStep | admin-vanilla/temp-cors-handler/job-status-update-lambda.py:96-134 | the status update stores the video half and keeps the audio half as it was |
| Pipeline.GenerateAudioStep | admin-vanilla/temp-cors-handler/audio-handler-lambda.py:59-117 | a successful audio run stores the audio half and keeps the video half as it was |
| Pipeline.DispatchStartsPairing | admin-vanilla/temp-cors-handler/job-processor-lambda.py:149-160 | processing an audio job publishes its video and audio requests and leaves neither half stored |
| Pipeline.RunPairs | admin-vanilla/temp-cors-handler/job-orchestrator-lambda.py:52-83 | over any sequence of the four steps, the stored halves are those whose step ran and the ready events are the reference count of that order, all identical |
| Pipeline.VideoFirstPairsOnce | admin-vanilla/temp-cors-handler/job-orchestrator-lambda.py:52-83 | video then audio gives exactly one ready event |
| Pipeline.AudioFirstPairsOnce | admin-vanilla/temp-cors-handler/job-orchestrator-lambda.py:52-83 | audio then video gives exactly one ready event |
| Pipeline.InterleavingPairsTwice | admin-vanilla/temp-cors-handler/job-orchestrator-lambda.py:52-83 | when both halves are stored before either orchestration, two ready events are emitted |
| Pipeline.InterleavingNeverPairs | admin-vanilla/temp-cors-handler/job-orchestrator-lambda.py:52-83 | when each orchestration reads before the other half is stored, no ready event is emitted |
| Pipeline.CompletedBeforeAudio | admin-vanilla/temp-cors-handler/job-status-update-lambda.py:108-134 | a job wanting audio is COMPLETED once its video renders, before the audio exists |
| Pipeline.CombinePaired | admin-vanilla/temp-cors-handler/video-audio-combiner-ffmpeg.py:25-171 | the ffmpeg combiner completes a paired job's ready event with the combined url and one event |
| ListJobs.FormatEntry | admin-vanilla/temp-cors-handler/list-jobs-lambda.py:226-244 | a list line keeps the job's id, urls, duration, resolution, tier and error message; a missing status reads `unknown`, missing creation and update times the default timestamp; the prompt is its preview |
| ListJobs.OwnJobs | admin-vanilla/temp-cors-handler/list-jobs-lambda.py:167-188 | the caller's jobs are exactly the scanned jobs they own |
| ListJobs.UserJobs | admin-vanilla/temp-cors-handler/list-jobs-lambda.py:157-224 | the page holds at most the page size of the caller's own jobs, the total counts all of them, the page count is the ceiling, a page past the end is empty, and a failed scan lists nothing |
| ListJobs.UserJobsPage | admin-vanilla/temp-cors-handler/list-jobs-lambda.py:188-199 | the caller's jobs are sorted newest first, and the page is exactly the entries of that order from index (page - 1) times size on, in order, as many as the page holds |
| ListJobs.EntriesAreOwn | admin-vanilla/temp-cors-handler/list-jobs-lambda.py:191-202 | every line of a page formats a job of the caller |
| ListJobs.PageDrawsFrom | admin-vanilla/temp-cors-handler/list-jobs-lambda.py:195-199 | a page holds only items of the list it is cut from |
| ListJobs.ErrorCode | admin-vanilla/temp-cors-handler/list-jobs-lambda.py:60-65 | the generic `except` answers 401 exactly for Unauthorized, 400 exactly for Invalid otherwise, and 500 else |
| ListJobs.HandleList | admin-vanilla/temp-cors-handler/list-jobs-lambda.py:18-65 | a preflight answers 204 or 403 by origin; another method answers what its error text selects; no caller answers 401; 200 exactly when the page numbers read, with the clamped page of the caller's jobs |
| ListJobs.MethodRefusal | admin-vanilla/temp-cors-handler/list-jobs-lambda.py:33-65 | a method other than GET or OPTIONS answers the code its name selects, and 500 when there is none |
| ListJobs.UnreadablePage | admin-vanilla/temp-cors-handler/list-jobs-lambda.py:45-64 | a page number `int()` cannot read answers the code its text selects, with Python's conversion error |
| ListJobs.IntErrorCode | admin-vanilla/temp-cors-handler/list-jobs-lambda.py:63-64 | the conversion error's own lower-case `invalid` never selects 400 |
| ListJobs.EveryOwnJobListed | admin-vanilla/temp-cors-handler/list-jobs-lambda.py:157-213 | every job of the caller appears on some page within the page count |
| ListJobs.PageOfOwnJob | admin-vanilla/temp-cors-handler/list-jobs-lambda.py:193-209 | for a given size, a page within the page count holds the job |
| ListJobs.TotalCountsOwnJobs | admin-vanilla/temp-cors-handler/list-jobs-lambda.py:167-194 | the total counts exactly the caller's jobs in the table |
| Listing.SortNewestFirst | admin-vanilla/temp-cors-handler/list-jobs-lambda.py:191 | the result is a permutation of the input in non-increasing creation time |
| Listing.NewestFirstKeysUnique | admin-vanilla/temp-cors-handler/list-jobs-lambda.py:190-191 | two newest-first orders of the same jobs agree on the creation time at every position |
| Listing.PageOf | admin-vanilla/temp-cors-handler/list-jobs-lambda.py:195-199 | a page is the slice at offset (page - 1) times size, at most size long and empty past the end |
| Listing.PageIsSlice | admin-vanilla/temp-cors-handler/list-jobs-lambda.py:195-199 | a page starting inside the list is the contiguous run of the list from its first index |
| Listing.TotalPages | admin-vanilla/temp-cors-handler/list-jobs-lambda.py:209 | the page count is the ceiling of the total over the page size |
| Listing.PageCovers | admin-vanilla/temp-cors-handler/list-jobs-lambda.py:193-209 | every position lies on a page within the page count, at its offset on that page |
| Listing.ClampPage | admin-vanilla/temp-cors-handler/list-jobs-lambda.py:49-50 | the page is at least one and a valid page is kept |
| Listing.ClampPageSize | admin-vanilla/temp-cors-handler/list-jobs-lambda.py:51-52 | the size lies between one and the maximum; a size in range is kept and any other becomes the default |
| Listing.Preview | admin-vanilla/temp-cors-handler/list-jobs-lambda.py:237 | a prompt of at most 100 characters is kept; a longer one becomes its first 100 characters and an ellipsis |
| Listing.PreviewIdempotent | admin-vanilla/temp-cors-handler/list-jobs-lambda.py:237 | previewing a preview changes nothing |
| Counting.TallyCounts | admin-vanilla/temp-cors-handler/admin-jobs-lambda.py:97-108 | the tally's keys are exactly the keys seen, each counted as often as it occurs |
| Counting.Bump | admin-vanilla/temp-cors-handler/admin-jobs-lambda.py:100 | bumping adds the key, raises its count by one and leaves every other count alone |
| Counting.TallySum | admin-vanilla/temp-cors-handler/admin-jobs-lambda.py:97-108 | the counts of a tally add up to the number of keys |
| Text.ContainsIffOccurs | admin-vanilla/temp-cors-handler/list-jobs-lambda.py:63 | Python's `in` on strings holds exactly when the word occurs at some position |
| Text.SplitJoin | admin-vanilla/temp-cors-handler/get-job-lambda.py:157-177 | splitting a joined path gives back its separator-free segments |
| Text.ParseNatToString | admin-vanilla/temp-cors-handler/list-jobs-lambda.py:45-46 | `int()` reads back the decimal form of a natural number |
| Text.LexLeTotal | admin-vanilla/temp-cors-handler/list-jobs-lambda.py:191 | string order on timestamps is total |
| Text.LexLeTransitive | admin-vanilla/temp-cors-handler/list-jobs-lambda.py:191 | string order on timestamps is transitive |
| Text.LexLeAntisymmetric | admin-vanilla/temp-cors-handler/list-jobs-lambda.py:191 | string order on timestamps is antisymmetric |
| GetJob.FormatView | admin-vanilla/temp-cors-handler/get-job-lambda.py:198-217 | the view copies the job's id, prompt, video and audio urls, duration, resolution, tier and error message, and defaults a missing status to unknown and missing timestamps to the legacy date |
| GetJob.JobIdFromPath | admin-vanilla/temp-cors-handler/get-job-lambda.py:157-177 | an `id` path parameter wins; an id taken from the path holds no slash |
| GetJob.NonJobPathNamesNothing | admin-vanilla/temp-cors-handler/get-job-lambda.py:157-178 | without an `id` parameter, a path whose slash-stripped form does not start with `v1/jobs/` yields no job id |
| GetJob.JobsPartsPrefix | admin-vanilla/temp-cors-handler/get-job-lambda.py:169-171 | the parts `v1`, `jobs`, ... the path test accepts come from a path starting with `v1/jobs/` |
| GetJob.Lookup | admin-vanilla/temp-cors-handler/get-job-lambda.py:179-196 | a job is found exactly when the read succeeds and the key is stored, and it is the stored job |
| GetJob.ErrorCode | admin-vanilla/temp-cors-handler/get-job-lambda.py:59-65 | the `except` answers 401 exactly when the message says Unauthorized; otherwise 400 exactly when it says Invalid or not found; otherwise 403 exactly when it says Access denied; otherwise 500 |
| GetJob.HandleGet | admin-vanilla/temp-cors-handler/get-job-lambda.py:18-65 | a preflight answers 204 or 403 by origin; a GET answers 401, 400, 404, 403 or 200 in that order of checks; a 200 shows the caller's own stored job |
| GetJob.PathYieldsId | admin-vanilla/temp-cors-handler/get-job-lambda.py:157-177 | a path `/v1/jobs/{id}` yields that id |
| GetJob.OwnerOnly | admin-vanilla/temp-cors-handler/get-job-lambda.py:52-57 | a found job answers 200 to its owner and 403 to anyone else |
| GetJob.ReadFailureIsNotFound | admin-vanilla/temp-cors-handler/get-job-lambda.py:179-196 | a failing read answers exactly as a missing job: 404 |
| GetJob.ListedJobFetches | admin-vanilla/temp-cors-handler/get-job-lambda.py:34-57 | a job the list shows its owner can be fetched by them, with the same id, status, creation time and url |
| AdminJobs.DurationCount | admin-vanilla/temp-cors-handler/admin-jobs-lambda.py:110-114 | the duration count is zero exactly when no job has a truthy duration |
| AdminJobs.NoDurationNoSum | admin-vanilla/temp-cors-handler/admin-jobs-lambda.py:110-117 | with no durations the sum is zero |
| AdminJobs.StatsOf | admin-vanilla/temp-cors-handler/admin-jobs-lambda.py:84-117 | the statistics count every job |
| AdminJobs.StatsTallies | admin-vanilla/temp-cors-handler/admin-jobs-lambda.py:97-108 | the loop's status, user and resolution maps are the tallies of the jobs' keys |
| AdminJobs.StatsDurations | admin-vanilla/temp-cors-handler/admin-jobs-lambda.py:110-114 | the loop's duration sum and count are those of the truthy durations |
| AdminJobs.StatsSumToTotal | admin-vanilla/temp-cors-handler/admin-jobs-lambda.py:97-108 | each breakdown adds up to the number of jobs |
| AdminJobs.StatsCountEveryJob | admin-vanilla/temp-cors-handler/admin-jobs-lambda.py:97-100 | the status map has an entry for exactly the statuses seen, each counted as often as it occurs |
| AdminJobs.TallyOfKeys | admin-vanilla/temp-cors-handler/admin-jobs-lambda.py:97-108 | a key is counted exactly when some job has it |
| AdminJobs.KeysOfIndex | admin-vanilla/temp-cors-handler/admin-jobs-lambda.py:98-107 | the keys list each job's key in order |
| AdminJobs.ComputeStats | admin-vanilla/temp-cors-handler/admin-jobs-lambda.py:97-117 | the loop computes the reference statistics |
| AdminJobs.HandleAdminList | admin-vanilla/temp-cors-handler/admin-jobs-lambda.py:17-137 | a preflight answers 200 or 403 by origin; another method 500; no caller 401; 200 exactly when the page numbers read and the scan succeeds, with the clamped page of all jobs newest first and their statistics |
| AdminJobs.AnyCallerSeesAll | admin-vanilla/temp-cors-handler/admin-jobs-lambda.py:37-41 | any two callers get the same answer |
| AdminJobs.UndecodableTokenRefused | admin-vanilla/temp-cors-handler/admin-jobs-lambda.py:198-222 | an undecodable token answers 401 here, where the user handlers fall back to the test user |
| AdminConsole.Param | temp-lambda/admin-jobs-lambda.py:57-58 | a query parameter is present exactly when the parameter object holds it |
| AdminConsole.JobIdParam | temp-lambda/admin-jobs-lambda.py:57-58 | the job id is a non-empty `jobId`, otherwise a non-empty `id` |
| AdminConsole.StatusDisplay | temp-lambda/admin-jobs-lambda.py:339-348 | a status without a display name is shown as it is |
| AdminConsole.StatusDisplayIdempotent | temp-lambda/admin-jobs-lambda.py:339-348 | displaying a display name again changes nothing |
| AdminConsole.StatusDisplayInjective | temp-lambda/admin-jobs-lambda.py:339-348 | statuses that are not display names are displayed differently |
| AdminConsole.EmailOf | temp-lambda/admin-jobs-lambda.py:223-237 | the email is the directory's entry, or Unknown |
| AdminConsole.Enrich | temp-lambda/admin-jobs-lambda.py:195-221 | an enriched job keeps the job, has an email exactly when it has a user id, and shows its status's display name |
| AdminConsole.EnrichAll | temp-lambda/admin-jobs-lambda.py:131-135 | every job is enriched, in order |
| AdminConsole.CreditsOf | temp-lambda/admin-jobs-lambda.py:255-257 | the credits used are `creditsUsed` (0 when absent) summed over every job given, which the list handler passes as all the jobs its scan selected (one user's only under a `userId` filter) |
| AdminConsole.CreditsAppend | temp-lambda/admin-jobs-lambda.py:255-257 | the credits used by two job lists add up |
| AdminConsole.StatsFor | temp-lambda/admin-jobs-lambda.py:239-267 | the statistics count every job |
| AdminConsole.StatsCountEveryJob | temp-lambda/admin-jobs-lambda.py:250-253 | the status counts add up to the number of jobs, each status counted as often as it occurs |
| AdminConsole.FilterOf | temp-lambda/admin-jobs-lambda.py:73-75 | a status or user filter is set exactly when its query parameter is non-empty, and then holds that parameter's value |
| AdminConsole.SelectMembers | temp-lambda/admin-jobs-lambda.py:85-103 | a job is selected exactly when it is in the response and matches the filter |
| AdminConsole.MinScan | temp-lambda/admin-jobs-lambda.py:111 | the scan target is `max(limit * 10, 500)`: at least both, and equal to one of them |
| AdminConsole.ScanUntil | temp-lambda/admin-jobs-lambda.py:105-123 | the loop ends in the one outcome `ReadOutcome` allows, which is the reference scan's, and holds the filtered items of the responses it read |
| AdminConsole.GatherFrom | temp-lambda/admin-jobs-lambda.py:111-123 | the reference scan reads a prefix of the responses with no exception in it, stops as soon as it holds the target or after the last response, and needed every response it read; or it stops at the first response that raises |
| AdminConsole.ReadOutcomeUnique | temp-lambda/admin-jobs-lambda.py:114-122 | at most one outcome meets that description, so it pins down where the loop stops |
| AdminConsole.NoneRaiseMeans | temp-lambda/admin-jobs-lambda.py:115 | the step-by-step "no response raised yet" is the same as "none of the first n responses raises" |
| AdminConsole.SelectedGrows | temp-lambda/admin-jobs-lambda.py:114-117 | reading more responses only appends selected jobs |
| AdminConsole.SelectedPastEnd | temp-lambda/admin-jobs-lambda.py:119-122 | reading past the last response selects nothing more |
| AdminConsole.SmallTableReadWhole | temp-lambda/admin-jobs-lambda.py:114-122 | a table with fewer matches than the target is read to its end |
| AdminConsole.SelectedMatch | temp-lambda/admin-jobs-lambda.py:89-103 | every selected job matches the filter |
| AdminConsole.ProjectAll | temp-lambda/admin-jobs-lambda.py:326 | related jobs keep each job's id, status, creation time and prompt, in order |
| AdminConsole.SameUser | temp-lambda/admin-jobs-lambda.py:323 | the related-jobs filter keeps exactly the user's other jobs |
| AdminConsole.RelatedAsWritten | temp-lambda/admin-jobs-lambda.py:313-337 | as written, there are no related jobs without a user or a scan, and at most five |
| AdminConsole.RelatedJobs | temp-lambda/admin-jobs-lambda.py:313-337 | corrected (the filter applied before the limit), there are no related jobs without a user or a scan, and at most five; the handler does not use it |
| AdminConsole.RelatedMissesLaterJobs | temp-lambda/admin-jobs-lambda.py:322-334 | as written, a user whose jobs all come after the first five scanned gets no related jobs, while the corrected version finds them |
| AdminConsole.RelatedAreNewestOwn | temp-lambda/admin-jobs-lambda.py:313-337 | corrected, the related jobs are the user's newest other jobs, five or all of them when fewer |
| AdminConsole.S3Location | temp-lambda/admin-jobs-lambda.py:170 | the location starts with `s3://deepfound-jobs-prod/` and has room for exactly the job id and a closing slash after it |
| AdminConsole.S3LocationNamesJob | temp-lambda/admin-jobs-lambda.py:170 | the job id can be read back from the location |
| AdminConsole.Detail | temp-lambda/admin-jobs-lambda.py:152-193 | the detail answers 200 exactly when the read succeeds and the job is stored, otherwise 404 or 500 |
| AdminConsole.List | temp-lambda/admin-jobs-lambda.py:67-150 | the list answers 200 or 500 |
| AdminConsole.HandleConsole | temp-lambda/admin-jobs-lambda.py:30-65 | no caller answers 401 and a non-admin 403; an admin gets the detail when a job id is given and the list otherwise |
| AdminConsole.GateBeforeTables | temp-lambda/admin-jobs-lambda.py:38-54 | a non-admin's answer is 401 or 403 whatever the tables hold |
| AdminConsole.DetailShowsStoredJob | temp-lambda/admin-jobs-lambda.py:152-189 | the detail of a stored job shows that job, its storage location, the admin, and the related jobs of the limited scan, at most five |
| AdminConsole.TakeNewest | temp-lambda/admin-jobs-lambda.py:125-129 | taking the head of a newest-first list keeps the newest jobs |
| AdminConsole.ListShowsNewest | temp-lambda/admin-jobs-lambda.py:125-146 | a listed page is the newest `limit` of the scanned jobs, `hasMore` says whether more were scanned, and the statistics count every scanned job |
| AdminConsole.ListedJobsMatch | temp-lambda/admin-jobs-lambda.py:89-103 | every listed job matches the filter |
| CreditsAdmin.Origin | temp-lambda/credits-admin-lambda.py:22-23 | the lower-case `origin` header wins when non-empty, otherwise `Origin` |
| CreditsAdmin.Method | temp-lambda/credits-admin-lambda.py:27-31 | a non-empty `httpMethod` wins, otherwise the request context's method |
| Text.Trunc | temp-lambda/credits-admin-lambda.py:154 | `int()` of a number with a fraction truncates toward zero |
| Text.TruncProperties | temp-lambda/credits-admin-lambda.py:154 | truncation keeps whole numbers and commutes with negation |
| CreditsAdmin.BalanceOf | temp-lambda/credits-admin-lambda.py:142-161 | an unknown user has 0 credits, email Unknown and last update Never; a known user's stored credits (truncated by `int()`, 0 when absent), email (else Unknown) and last update (else Never) are answered |
| CreditsAdmin.StoredAsWritten | temp-lambda/credits-admin-lambda.py:163-189 | as written, the user's record gets the credits and the admin, and other users are untouched |
| CreditsAdmin.Stored | temp-lambda/credits-admin-lambda.py:163-189 | corrected, the user's record also keeps its email, other users are untouched, and no other user is added |
| CreditsAdmin.Put | temp-lambda/credits-admin-lambda.py:73-96 | as written, a PUT answers 200, 400 or 500 and changes the table only on 200; a 200 leaves the user's record without an email and adds no other user |
| CreditsAdmin.PutIntended | temp-lambda/credits-admin-lambda.py:73-96 | corrected, a 200 keeps the user's stored email; otherwise as `CreditsAdmin.Put` |
| CreditsAdmin.PutWith | temp-lambda/credits-admin-lambda.py:80-96 | the checks in the code's order; only a 200 writes, and then only the named user's record, replaced whole or with its email kept |
| CreditsAdmin.Get | temp-lambda/credits-admin-lambda.py:62-71 | a GET answers 200, 400 or 500 and never changes the table |
| CreditsAdmin.HandleCredits | temp-lambda/credits-admin-lambda.py:13-105 | a preflight answers 204 or 403 by origin; no caller 401; a non-admin 403; an admin's GET, PUT or other method goes to the balance read, the update or a 405 |
| CreditsAdmin.OnlyPutWrites | temp-lambda/credits-admin-lambda.py:62-96 | the table changes only on a successful admin PUT, and only the named user's record |
| CreditsAdmin.PreflightIgnoresCaller | temp-lambda/credits-admin-lambda.py:27-34 | the preflight answer depends on neither the caller nor the table's failures |
| CreditsAdmin.PutThenGet | temp-lambda/credits-admin-lambda.py:142-185 | after a successful PUT of non-negative credits, a GET answers the truncated credits, the update time the write stored (that time and the PUT's timestamp each come from a `utcnow()` call, modelled as the one clock reading `now`), and the email Unknown because the record was replaced |
| CreditsAdmin.IntendedPutThenGet | temp-lambda/credits-admin-lambda.py:142-185 | with the intended write, the same GET answers the email the record held |
| CreditsAdmin.PutAsWrittenErasesEmail | temp-lambda/credits-admin-lambda.py:171-178 | as written, a PUT makes the user's email read back as Unknown |
| CreditsAdmin.PutKeepsEmail | temp-lambda/credits-admin-lambda.py:171-178 | corrected, a PUT leaves the user's email as it was |
| CreditsAdmin.BooleanCreditsFail | temp-lambda/credits-admin-lambda.py:91-95 | a JSON boolean as credits answers 500 with the decimal conversion error and no change |
| CreditsAdmin.NegativeCreditsRefused | temp-lambda/credits-admin-lambda.py:91-92 | negative credits answer 400 and change nothing |
| CreditsAdmin.ConsoleAdminRefusedHere | temp-lambda/credits-admin-lambda.py:53-60 | a user the admin console accepts is refused 403 here, because the two admin lists differ |

## Left out

- CORS headers and `build_response`: response headers are not modelled; only the status code and the body are.
- DynamoDB, EventBridge, S3, Secrets Manager and Cognito: each call's outcome is an input. The Cognito user directory is a map from user id to email.
- fal.ai and ffmpeg: their outcomes, such as the returned url or an error, are inputs.
- Absent versus null fields: both are `None`.
- Event delivery: a publish is modelled as `Ok`, meaning the event is on the bus, or `Raise`. `put_events` can also return normally with `FailedEntryCount > 0`, meaning an entry was not delivered. The processor turns that reply into an exception (job-processor-lambda.py:195, 246), which its publish `Raise` covers. The orchestrator (job-orchestrator-lambda.py:103), the audio handler (audio-handler-lambda.py:120, 165) and the combiners (video-audio-combiner-ffmpeg.py:146, 203; video-audio-combiner-lambda-v2.py:112, 161; video-audio-combiner-lambda.py:128, 174; video-audio-combiner-cloud.py:54) ignore the count. There they answer 200 and write `COMPLETED` while the event is lost. That outcome is not modelled: an `Ok` publish always delivers, so `Pipeline.RunPairs` and every contract that names the published events assume delivery.
- Timestamps and uuids: they are parameters. Two `utcnow()` calls in one handler read as one `now`.
- `repr`/`str` of exceptions: the text is modelled only as far as the status-code choice reads it.
- Text.ParseInt: digit-group underscores, which `int()` accepts (`"1_000"`), and non-ASCII digits are refused. Surrounding whitespace is stripped, as `int()` strips it.
- JWT decoding: base64 and JSON decoding of the payload are an input, `decoded`. The base64 body encoding of an event is not modelled.
- Floating point: average durations, estimated costs, performance metrics and `guidance_scale` are left out. JSON numbers with a fraction are finite reals (`JFloat`); NaN and Infinity, which Python's JSON decoder also accepts, and the binary rounding of decimal literals are not modelled.
- Fields outside `Job`: log stream names, retry counts and admin notes are not part of the job record.
- Submission.Submit: the credit check of the source always passes, so it is not modelled and no 402 can arise.
- CreditsAdmin.Get: its own contract only bounds the code and keeps the table; the balance it answers is stated by `CreditsAdmin.BalanceOf` and `CreditsAdmin.PutThenGet`.
- AdminConsole.Detail: its own contract gives only the codes; what a 200 shows is stated by `AdminConsole.DetailShowsStoredJob`.
- AdminConsole.List: its own contract gives only the codes; what a 200 lists is stated by `AdminConsole.ListShowsNewest` and `AdminConsole.ListedJobsMatch`.
- AdminConsole.StatsFor: its own contract gives only the total; the per-status counts are stated by `AdminConsole.StatsCountEveryJob`. The credits sum is stated only by `AdminConsole.CreditsAppend`.
- AdminJobs.StatsOf: its own contract gives only the total; the breakdowns are stated by `AdminJobs.StatsTallies`, `AdminJobs.StatsDurations`, `AdminJobs.StatsSumToTotal` and `AdminJobs.StatsCountEveryJob`.
- AdminConsole.RelatedAsWritten: its own contract gives only the bound of five; its behaviour is stated by `AdminConsole.RelatedMissesLaterJobs`.
- AdminConsole.RelatedJobs: its own contract gives only the bound of five; its contents are stated by `AdminConsole.RelatedAreNewestOwn`. It is the corrected twin of the related-jobs scan; `AdminConsole.Detail` uses the scan as written.
- AdminConsole.StatusDisplay: the five display names themselves are not stated, only that other statuses pass through, that display is idempotent and that it is injective on them.
- AdminConsole.Enrich: the duration, a date-time difference, is left out.
- AdminConsole.Detail: a non-string user id, which would raise in the user lookup, is modelled only as a failed lookup.
- AdminConsole.ScanUntil: the per-page scan limit and the paging tokens are inputs.
- Listing.SortNewestFirst: stability is not stated. Jobs with equal creation times may come out in any order; with distinct times the order is unique (`Listing.NewestFirstKeysUnique`).
- CreditsAdmin.Put: what it answers for each body is stated by `CreditsAdmin.PutThenGet`, `CreditsAdmin.NegativeCreditsRefused` and `CreditsAdmin.BooleanCreditsFail`, not by its own contract.
- CombinerFfmpeg.HandleFfmpeg: the job read at video-audio-combiner-ffmpeg.py:44 is outside the `try`. A raising read is not modelled; the read's result is an input.
- AdminJobs.HandleAdminList: the page lists the job records themselves. `format_jobs_list` (admin-jobs-lambda.py:228-260) copies fields under their own names, adds the raw item and defaults the status to `unknown`. It is not modelled because it adds no field the record lacks beyond that default.
- Processor.BuildFalParameters: the `except` fallback parameters (job-processor-lambda.py:303-313) are not modelled. They are reached only when the stored duration is something `int()` cannot read, and durations are integers in the model.
- ListJobs.FormatEntry: the `except` fallback entry (list-jobs-lambda.py:245-259) is not modelled, because formatting a modelled job record cannot raise.
- Pipeline.RunPairs: concurrency is modelled as sequential interleavings of whole handler steps, not as true parallelism.
- Mock handlers: credits purchase, credits balance, jobs overview and the credit check return fixed data and are not part of this model.
- The credits user list, the JavaScript front-end files, the tests and the debug scripts are not part of this model.

## Findings

| source | as written | input that shows it | evidently intended | confidence | as-written member | corrected member |
|---|---|---|---|---|---|---|
| admin-vanilla/temp-cors-handler/video-audio-combiner-lambda-v2.py:103 | the three updates at lines 103, 151 and 195 name `status`, a DynamoDB reserved word, without an attribute-name alias, so the store refuses each of them; only the PROCESSING write at line 69, which names no reserved word, succeeds | a complete event whose provider answers 200 with a url | the job ends COMPLETED with the combined url and a completion event is published | medium, not executed | CombinerV2.V2AsWrittenStuckProcessing | CombinerV2.HandleV2 |
| admin-vanilla/temp-cors-handler/video-audio-combiner-lambda.py:118 | the success update names `status` without an alias, so it raises, and the `except` marks the combination FAILED | a merge in which every call succeeds | the combination ends COMPLETED with the merged url | medium, not executed | CombinerLambda.LambdaAsWrittenFails | CombinerLambda.HandleLambda |
| admin-vanilla/temp-cors-handler/video-audio-combiner-cloud.py:89 | the `except` branch's update names `error`, a DynamoDB reserved word, without an attribute-name alias, so the table refuses it and the bare `except` swallows the refusal | a complete event whose completion write succeeds and whose publish raises | the job is marked FAILED with the error text | medium, not executed | CombinerCloud.CloudFailureUnrecorded | CombinerCloud.HandleCloud |
| temp-lambda/admin-jobs-lambda.py:322-327 | related jobs come from a scan with `Limit=5`, which DynamoDB applies before the user filter | a table whose first five items belong to other users, followed by the user's jobs | the user's own newest jobs, up to five | high, not executed | AdminConsole.RelatedMissesLaterJobs | AdminConsole.RelatedAreNewestOwn |
| temp-lambda/credits-admin-lambda.py:171-178 | `put_item` replaces the whole credits record with only the user id, credits and update time | a PUT for a user whose record holds an email | the other fields of the record, the email among them, are kept | medium, not executed | CreditsAdmin.PutThenGet | CreditsAdmin.IntendedPutThenGet |

