/** What the four combiner variants share: the event they consume, the
    events they publish, the public URL they build, and how the table
    treats an update that names a reserved word such as `status` or
    `error` directly. */
module Combining {

  import opened Wrappers
  import opened Jobs

  const CombinerSource: string := "contentcraft.combiner"
  const CombinedReadyType: string := "combined.video.ready"
  const SeparateTracksType: string := "video.audio.separate"
  const CombinedFailedType: string := "combined.video.failed"
  const CompletedWithAudioType: string := "job.completed.with.audio"
  const CloudFrontDomain: string := "https://d3beyg2vg2l65f.cloudfront.net"

  /** The error the table raises for an update expression that names
      `status`, a reserved word of DynamoDB, without an attribute-name
      placeholder. */
  const ReservedWordError: string :=
    "An error occurred (ValidationException) when calling the UpdateItem operation: "
    + "Invalid UpdateExpression: Attribute name is a reserved keyword; reserved keyword: status"

  /** The same refusal for `error`, another reserved word. */
  const ErrorWordError: string :=
    "An error occurred (ValidationException) when calling the UpdateItem operation: "
    + "Invalid UpdateExpression: Attribute name is a reserved keyword; reserved keyword: error"

  /** The outcome of an update as the table gives it: an expression naming
      `status` unaliased is rejected whatever else happens. */
  function AsIssued(call: Call, namesStatusUnaliased: bool): (c: Call)
    ensures namesStatusUnaliased ==> c == Raise(ReservedWordError)
    ensures !namesStatusUnaliased ==> c == call
  {
    if namesStatusUnaliased then Raise(ReservedWordError) else call
  }

  /** All four of `jobId`, `userId`, `videoUrl`, `audioUrl` are truthy. */
  predicate Complete(d: Detail) {
    Present(d.jobId) && Present(d.userId) && Present(d.videoUrl) && Present(d.audioUrl)
  }

  function CombinedReadyEvent(id: string, userId: string, combinedUrl: string, videoUrl: string,
                              audioUrl: string, now: string): (e: Event)
    ensures e.detailType == CombinedReadyType && e.detail.combinedUrl == Some(combinedUrl)
  {
    Event(CombinerSource, CombinedReadyType,
          EmptyDetail().(jobId := Some(id), userId := Some(userId), combinedUrl := Some(combinedUrl),
                         originalVideoUrl := Some(videoUrl), originalAudioUrl := Some(audioUrl),
                         timestamp := Some(now + "Z")))
  }

  function SeparateEvent(id: string, userId: string, videoUrl: string, audioUrl: string,
                         error: Option<string>, now: string): (e: Event)
    ensures e.detailType == SeparateTracksType && e.detail.combinedUrl.None?
  {
    Event(CombinerSource, SeparateTracksType,
          EmptyDetail().(jobId := Some(id), userId := Some(userId), videoUrl := Some(videoUrl),
                         audioUrl := Some(audioUrl), error := error, timestamp := Some(now + "Z")))
  }

  /** Stripping a fixed prefix and suffix recovers the middle: URLs built
      as prefix + job id + suffix are distinct for distinct jobs. */
  lemma AffixInjective(prefix: string, a: string, b: string, suffix: string)
    requires prefix + a + suffix == prefix + b + suffix
    ensures a == b
  {
    var s := prefix + a + suffix;
    assert |a| == |b|;
    assert a == s[|prefix|..|prefix| + |a|];
    assert b == (prefix + b + suffix)[|prefix|..|prefix| + |b|];
  }
}
