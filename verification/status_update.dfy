/** The status updater (admin-vanilla/temp-cors-handler/job-status-update-lambda.py):
    `video.rendered` marks the job COMPLETED and records the video URL and
    metadata; `video.failed` marks it FAILED with an error text. Events
    arrive alone or as a list of records, processed in order; the first
    record that raises ends the run with 500, keeping the earlier writes. */
module StatusUpdate {

  import opened Wrappers
  import opened Jobs

  const VideoRenderedType: string := "video.rendered"
  const VideoFailedType: string := "video.failed"
  const DefaultFailure: string := "Video generation failed"

  /** One entry of `Records`: an `eventbridge` member, a `body` holding the
      event as JSON (`None` when it does not parse, which raises), or the
      record itself as the event. */
  datatype Record = EventBridgeMember(ev: Event) | Body(parsed: Option<Event>) | Plain(ev: Event)

  /** The invocation: a `Records` list, a bare event (it has `detail-type`),
      or neither. */
  datatype Invocation = Records(records: seq<Record>) | Direct(ev: Event) | Unknown

  /** The video URL of a rendered event: `videoUrl`, else `outputUrl`, when
      non-empty. */
  function RenderedUrl(d: Detail): (u: Option<string>)
    ensures u.Some? ==> Present(u)
    ensures Present(d.videoUrl) ==> u == d.videoUrl
    ensures !Present(d.videoUrl) && Present(d.outputUrl) ==> u == d.outputUrl
    ensures !Present(d.videoUrl) && !Present(d.outputUrl) ==> u.None?
  {
    if Present(d.videoUrl) then d.videoUrl else if Present(d.outputUrl) then d.outputUrl else None
  }

  /** The error text of a failed event: the `error` key when present, else
      `errorMessage`, else the default text. */
  function FailureText(d: Detail): (t: string)
    ensures d.error.Some? ==> t == d.error.value
    ensures d.error.None? && d.errorMessage.Some? ==> t == d.errorMessage.value
    ensures d.error.None? && d.errorMessage.None? ==> t == DefaultFailure
  {
    if d.error.Some? then d.error.value else d.errorMessage.GetOr(DefaultFailure)
  }

  /** The item after a rendered event: COMPLETED, the URL when the event has
      one, the duration and size when the event carries them. */
  function Rendered(j: Job, d: Detail, now: string): (r: Job)
    ensures r.status == Some(COMPLETED) && r.updatedAt == Some(now)
    ensures r.outputUrl == if RenderedUrl(d).Some? then RenderedUrl(d) else j.outputUrl
    ensures r.actual_duration == if d.duration.Some? then d.duration else j.actual_duration
    ensures r.file_size == if d.fileSize.Some? then d.fileSize else j.file_size
    ensures r.(status := j.status, updatedAt := j.updatedAt, outputUrl := j.outputUrl,
               actual_duration := j.actual_duration, file_size := j.file_size) == j
  {
    j.(status := Some(COMPLETED), updatedAt := Some(now),
       outputUrl := if RenderedUrl(d).Some? then RenderedUrl(d) else j.outputUrl,
       actual_duration := if d.duration.Some? then d.duration else j.actual_duration,
       file_size := if d.fileSize.Some? then d.fileSize else j.file_size)
  }

  /** The item after a failed event: FAILED with the error text. */
  function Failed(j: Job, d: Detail, now: string): (r: Job)
    ensures r.status == Some(FAILED) && r.error_message == Some(FailureText(d))
    ensures r.(status := j.status, updatedAt := j.updatedAt, error_message := j.error_message) == j
  {
    j.(status := Some(FAILED), updatedAt := Some(now), error_message := Some(FailureText(d)))
  }

  /** One event applied to the table: `Failure` carries the text of the
      exception a raising write throws. Events without a job id, and event
      types other than the two, write nothing. */
  function ApplyEvent(store: Store, ev: Event, write: Call, now: string): (r: Result<Store, string>)
    ensures r.Failure? <==>
              write.Raise? && Present(ev.detail.jobId) && ev.detailType in {VideoRenderedType, VideoFailedType}
    ensures r.Success? && (!Present(ev.detail.jobId) || ev.detailType !in {VideoRenderedType, VideoFailedType}) ==>
              r.value == store
    ensures r.Success? && Present(ev.detail.jobId) && ev.detailType == VideoRenderedType ==>
              r.value == store[ev.detail.jobId.value := Rendered(Stored(store, ev.detail.jobId.value), ev.detail, now)]
    ensures r.Success? && Present(ev.detail.jobId) && ev.detailType == VideoFailedType ==>
              r.value == store[ev.detail.jobId.value := Failed(Stored(store, ev.detail.jobId.value), ev.detail, now)]
  {
    if !Present(ev.detail.jobId) then Success(store)
    else
      var id := ev.detail.jobId.value;
      if ev.detailType == VideoRenderedType then
        if write.Raise? then Failure(write.msg) else Success(store[id := Rendered(Stored(store, id), ev.detail, now)])
      else if ev.detailType == VideoFailedType then
        if write.Raise? then Failure(write.msg) else Success(store[id := Failed(Stored(store, id), ev.detail, now)])
      else Success(store)
  }

  /** Delivering the same event twice leaves the table as delivering it
      once: both updates only set attributes to values taken from the
      event. */
  lemma ApplyEventIdempotent(store: Store, ev: Event, now: string)
    ensures var once := ApplyEvent(store, ev, Ok, now);
            once.Success? && ApplyEvent(once.value, ev, Ok, now) == once
  {
    var once := ApplyEvent(store, ev, Ok, now);
    if Present(ev.detail.jobId) {
      var id := ev.detail.jobId.value;
      if ev.detailType == VideoRenderedType {
        var j := Rendered(Stored(store, id), ev.detail, now);
        assert Rendered(j, ev.detail, now) == j;
        assert once.value[id := j] == once.value;
      } else if ev.detailType == VideoFailedType {
        var j := Failed(Stored(store, id), ev.detail, now);
        assert Failed(j, ev.detail, now) == j;
        assert once.value[id := j] == once.value;
      }
    }
  }

  /** The event a record carries, or the text `json.loads` raises. */
  function RecordEvent(r: Record): Result<Event, string> {
    match r
    case EventBridgeMember(ev) => Success(ev)
    case Body(parsed) => if parsed.Some? then Success(parsed.value) else Failure("Expecting value")
    case Plain(ev) => Success(ev)
  }

  /** The write outcome for the `i`-th record; records past the list meet none. */
  function WriteAt(writes: seq<Call>, i: nat): Call {
    if i < |writes| then writes[i] else Ok
  }

  /** The progress over the records: still running with the table so far,
      or stopped by the exception of a record. */
  datatype Progress = Running(store: Store) | Stopped(store: Store, msg: string)

  function Step(p: Progress, r: Record, write: Call, now: string): Progress {
    match p
    case Stopped(_, _) => p
    case Running(store) =>
      match RecordEvent(r)
      case Failure(msg) => Stopped(store, msg)
      case Success(ev) =>
        match ApplyEvent(store, ev, write, now)
        case Failure(msg) => Stopped(store, msg)
        case Success(s) => Running(s)
  }

  /** The records in order, from a running start. Once stopped, nothing
      more is written. */
  function RunRecords(store: Store, records: seq<Record>, writes: seq<Call>, now: string): (p: Progress)
    decreases |records|
  {
    if |records| == 0 then Running(store)
    else
      var n := |records| - 1;
      Step(RunRecords(store, records[..n], writes, now), records[n], WriteAt(writes, n), now)
  }

  /** A stopped run stays stopped with the same table. */
  lemma {:induction false} StoppedIsFinal(store: Store, records: seq<Record>, writes: seq<Call>, now: string,
                                         k: nat)
    requires k <= |records| && RunRecords(store, records[..k], writes, now).Stopped?
    ensures RunRecords(store, records, writes, now) == RunRecords(store, records[..k], writes, now)
    decreases |records| - k
  {
    if k < |records| {
      var n := |records| - 1;
      assert records[..n][..k] == records[..k];
      StoppedIsFinal(store, records[..n], writes, now, k);
    } else {
      assert records[..k] == records;
    }
  }

  /** The handler's loop over the records. */
  method HandleRecords(store: Store, records: seq<Record>, writes: seq<Call>, now: string)
    returns (result: Store, code: int)
    ensures code in {200, 500}
    ensures var p := RunRecords(store, records, writes, now);
            result == p.store && (code == 200 <==> p.Running?)
  {
    var p := Running(store);
    var i := 0;
    while i < |records| && p.Running?
      invariant 0 <= i <= |records|
      invariant p == RunRecords(store, records[..i], writes, now)
    {
      assert records[..i + 1][..i] == records[..i];
      p := Step(p, records[i], WriteAt(writes, i), now);
      i := i + 1;
    }
    if i < |records| {
      StoppedIsFinal(store, records, writes, now, i);
    } else {
      assert records[..i] == records;
    }
    result := p.store;
    code := if p.Running? then 200 else 500;
  }

  /** The handler: 400 for an invocation it does not recognise, 500 when a
      record raised (the earlier records' writes stay), 200 otherwise. */
  function HandleInvocation(store: Store, inv: Invocation, writes: seq<Call>, now: string): (o: Outcome)
    ensures o.events == []
    ensures inv.Unknown? ==> o == Outcome(store, [], 400)
    ensures inv.Records? ==>
              var p := RunRecords(store, inv.records, writes, now);
              o.store == p.store && (o.code == 200 <==> p.Running?) && (o.code == 500 <==> p.Stopped?)
    ensures inv.Direct? ==>
              var r := ApplyEvent(store, inv.ev, WriteAt(writes, 0), now);
              (o.code == 200 <==> r.Success?) && (r.Success? ==> o.store == r.value)
              && (r.Failure? ==> o == Outcome(store, [], 500))
  {
    match inv
    case Unknown => Outcome(store, [], 400)
    case Direct(ev) =>
      (match ApplyEvent(store, ev, WriteAt(writes, 0), now)
       case Failure(_) => Outcome(store, [], 500)
       case Success(s) => Outcome(s, [], 200))
    case Records(records) =>
      var p := RunRecords(store, records, writes, now);
      Outcome(p.store, [], if p.Running? then 200 else 500)
  }
}
