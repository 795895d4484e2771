/**
 * The demonstration service: an in-memory map from generated ids to status
 * entries, filled by `processVideo` and advanced by a deferred callback that
 * pretends to process the video.
 */
module DemoVideo {
  import opened Wrappers

  /** The four stages an entry passes through. */
  datatype DemoStatus = Pending | Processing | Completed | Failed

  /** One entry of the map; the optional fields are absent until set. */
  datatype Entry = Entry(
    id: string,
    status: DemoStatus,
    url: string,
    title: Option<string>,
    transcript: Option<string>,
    summary: Option<string>,
    error: Option<string>)

  const SampleTitle: string := "Sample Video Title"
  const SampleTranscript: string := "Sample transcript..."
  const SampleSummary: string := "Sample summary..."
  const UnknownError: string := "Unknown error"
  const NotFound: string := "Video not found"

  /** Where the callback's `try` block throws, if it does: at its first or at its last logging call. */
  datatype DeferredFault = NoFault | FailsAtStart(thrown: Thrown) | FailsAtEnd(thrown: Thrown)

  /** The entry `processVideo` stores: `pending`, with only its id and URL. */
  function Pended(videoId: string, url: string): (e: Entry)
    ensures e.id == videoId && e.url == url && e.status == Pending
    ensures e.title.None? && e.transcript.None? && e.summary.None? && e.error.None?
  {
    Entry(videoId, Pending, url, None, None, None, None)
  }

  /** The first update of the callback: the status becomes `processing`, every other field is kept. */
  function MarkProcessing(e: Entry): (r: Entry)
    ensures r.status == Processing
    ensures r.id == e.id && r.url == e.url && r.title == e.title && r.transcript == e.transcript
    ensures r.summary == e.summary && r.error == e.error
  {
    e.(status := Processing)
  }

  /** The simulated completion: the sample title, transcript and summary; id, URL and error are kept. */
  function MarkCompleted(e: Entry): (r: Entry)
    ensures r.status == Completed && r.id == e.id && r.url == e.url && r.error == e.error
    ensures r.title == Some(SampleTitle) && r.transcript == Some(SampleTranscript) && r.summary == Some(SampleSummary)
  {
    e.(status := Completed, title := Some(SampleTitle), transcript := Some(SampleTranscript), summary := Some(SampleSummary))
  }

  /** The `catch` update: `failed` with the error's message, every other field kept. */
  function MarkFailed(e: Entry, thrown: Thrown): (r: Entry)
    ensures r.status == Failed && r.error == Some(MessageOr(thrown, UnknownError))
    ensures r.id == e.id && r.url == e.url && r.title == e.title && r.transcript == e.transcript && r.summary == e.summary
  {
    e.(status := Failed, error := Some(MessageOr(thrown, UnknownError)))
  }

  /**
   * The entry the callback leaves: completed with the samples, or failed with
   * the message of what was thrown, always under the same id and URL.
   */
  function Deferred(e: Entry, fault: DeferredFault): (r: Entry)
    ensures r.id == e.id && r.url == e.url
    ensures r.status == Completed <==> fault.NoFault?
    ensures r.status == Failed <==> !fault.NoFault?
    ensures !fault.NoFault? ==> r.error == Some(MessageOr(fault.thrown, UnknownError))
    ensures !fault.FailsAtStart? ==>
      r.title == Some(SampleTitle) && r.transcript == Some(SampleTranscript) && r.summary == Some(SampleSummary)
    ensures fault.FailsAtStart? ==> r.title == e.title && r.transcript == e.transcript && r.summary == e.summary
  {
    match fault
    case FailsAtStart(thrown) => MarkFailed(e, thrown)
    case NoFault => MarkCompleted(MarkProcessing(e))
    case FailsAtEnd(thrown) => MarkFailed(MarkCompleted(MarkProcessing(e)), thrown)
  }

  /** A submitted URL, left to its callback, ends completed with the samples or failed with only the error added. */
  lemma SubmissionLifecycle(videoId: string, url: string, fault: DeferredFault)
    ensures fault.NoFault? ==>
      Deferred(Pended(videoId, url), fault)
        == Entry(videoId, Completed, url, Some(SampleTitle), Some(SampleTranscript), Some(SampleSummary), None)
    ensures fault.FailsAtStart? ==>
      Deferred(Pended(videoId, url), fault)
        == Entry(videoId, Failed, url, None, None, None, Some(MessageOr(fault.thrown, UnknownError)))
  {
  }

  /** The module-level map of `video.ts`. */
  class DemoVideoStore {
    var videos: map<string, Entry>

    constructor ()
      ensures videos == map[]
    {
      videos := map[];
    }

    /**
     * `processVideo`: stores a pending entry under the generated id `videoId`
     * and returns that id; the callback it schedules is `RunDeferred`.
     */
    method ProcessVideo(url: string, videoId: string) returns (id: string)
      modifies this
      ensures id == videoId
      ensures videos == old(videos)[videoId := Pended(videoId, url)]
    {
      videos := videos[videoId := Pended(videoId, url)];
      return videoId;
    }

    /** The deferred callback for `videoId`, one map update at a time. */
    method RunDeferred(videoId: string, fault: DeferredFault)
      requires videoId in videos
      modifies this
      ensures videos == old(videos)[videoId := Deferred(old(videos)[videoId], fault)]
    {
      if fault.FailsAtStart? {
        videos := videos[videoId := MarkFailed(videos[videoId], fault.thrown)];
        return;
      }
      videos := videos[videoId := MarkProcessing(videos[videoId])];
      videos := videos[videoId := MarkCompleted(videos[videoId])];
      if fault.FailsAtEnd? {
        videos := videos[videoId := MarkFailed(videos[videoId], fault.thrown)];
      }
    }

    /** `getVideoStatus`: the stored entry, or the error "Video not found". */
    method GetVideoStatus(videoId: string) returns (r: Result<Entry, string>)
      ensures videoId in videos ==> r == Success(videos[videoId])
      ensures videoId !in videos ==> r == Failure(NotFound)
    {
      if videoId !in videos {
        return Failure(NotFound);
      }
      return Success(videos[videoId]);
    }
  }
}
