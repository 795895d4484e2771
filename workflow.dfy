/**
 * `VideoService`: the intake of a submitted URL and the background step that
 * drives a video row to its final status. The metadata sources, the worker's
 * reply and the store's faults are inputs; everything else is the sequence of
 * repository calls the service makes.
 */
module Workflow {
  import opened Wrappers
  import opened Database
  import opened YoutubeId
  import opened Repository

  /** The one message every error inside `processVideo` is turned into. */
  const ProcessFailure: string := "Failed to process video. Please try again."

  /** What a metadata source (youtube-dl or ytdl-core) yields for a URL. */
  datatype MetadataFetch = Fetched(title: string, thumbnail: Option<string>) | FetchFailed

  /** `thumbnail || null`: an absent or empty thumbnail is stored as null. */
  function ThumbnailOrNull(thumbnail: Option<string>): (r: Option<string>)
    ensures r.Some? <==> thumbnail.Some? && thumbnail.value != ""
    ensures r.Some? ==> r == thumbnail
  {
    if thumbnail.Some? && thumbnail.value != "" then thumbnail else None
  }

  /** Everything outside the service that one `processVideo` call depends on. */
  datatype IntakeEnv = IntakeEnv(
    lookupFault: Option<StoreFault>,
    detailFaults: DetailFaults,
    youtubeDl: MetadataFetch,
    youtubeDlCreateFault: Option<StoreFault>,
    ytdl: MetadataFetch,
    ytdlCreateFault: Option<StoreFault>,
    now: Timestamp)

  /** The tables after a call, what the caller receives, and the row handed to background processing. */
  datatype Outcome = Outcome(tables: Tables, result: Result<Video, string>, dispatched: Option<Video>)

  /** The row a metadata source leads to: status `processing`, the extracted id and the submitted URL. */
  function NewRow(url: string, youtubeId: string, title: string, thumbnail: Option<string>): (v: VideoInsert)
    ensures v.youtube_id == youtubeId && v.url == url && v.title == title && v.status == Processing
    ensures v.thumbnail == ThumbnailOrNull(thumbnail)
  {
    VideoInsert(youtubeId, title, url, ThumbnailOrNull(thumbnail), Processing)
  }

  /** `processWithYoutubeDl`: fails unless the metadata has a non-empty title and the row is created. */
  function ViaYoutubeDl(t: Tables, url: string, youtubeId: string, fetch: MetadataFetch, fault: Option<StoreFault>, now: Timestamp): (r: (Tables, Option<Video>))
    ensures r.1.Some? <==> fetch.Fetched? && fetch.title != "" && fault.None?
    ensures r.1.None? ==> r.0 == t
    ensures r.1.Some? ==> (r.0, Success(r.1.value)) == InsertVideo(t, NewRow(url, youtubeId, fetch.title, fetch.thumbnail), now, None)
  {
    if fetch.FetchFailed? || fetch.title == "" then (t, None)
    else
      var (tables, created) := InsertVideo(t, NewRow(url, youtubeId, fetch.title, fetch.thumbnail), now, fault);
      if created.Success? then (tables, Some(created.value)) else (t, None)
  }

  /** `processWithYtdl`: any title is accepted; fails when the fetch or the insert fails. */
  function ViaYtdl(t: Tables, url: string, youtubeId: string, fetch: MetadataFetch, fault: Option<StoreFault>, now: Timestamp): (r: (Tables, Option<Video>))
    ensures r.1.Some? <==> fetch.Fetched? && fault.None?
    ensures r.1.None? ==> r.0 == t
    ensures r.1.Some? ==> (r.0, Success(r.1.value)) == InsertVideo(t, NewRow(url, youtubeId, fetch.title, fetch.thumbnail), now, None)
  {
    if fetch.FetchFailed? then (t, None)
    else
      var (tables, created) := InsertVideo(t, NewRow(url, youtubeId, fetch.title, fetch.thumbnail), now, fault);
      if created.Success? then (tables, Some(created.value)) else (t, None)
  }

  /** youtube-dl can supply the new row. */
  predicate YoutubeDlUsable(env: IntakeEnv) {
    env.youtubeDl.Fetched? && env.youtubeDl.title != "" && env.youtubeDlCreateFault.None?
  }

  /**
   * Creating the row for a YouTube id no row carries: youtube-dl first, ytdl-core
   * when anything on the youtube-dl path fails. A created row is dispatched.
   */
  function Create(t: Tables, url: string, youtubeId: string, env: IntakeEnv): (r: Outcome)
    ensures r.result.Failure? ==> r == Outcome(t, Failure(ProcessFailure), None)
    ensures r.result.Success? ==> r.dispatched == Some(r.result.value)
    ensures r.result.Success? <==> YoutubeDlUsable(env) || (env.ytdl.Fetched? && env.ytdlCreateFault.None?)
    ensures r.result.Success? ==>
      var source := if YoutubeDlUsable(env) then env.youtubeDl else env.ytdl;
      (r.tables, Success(r.result.value)) == InsertVideo(t, NewRow(url, youtubeId, source.title, source.thumbnail), env.now, None)
  {
    var (afterDl, viaDl) := ViaYoutubeDl(t, url, youtubeId, env.youtubeDl, env.youtubeDlCreateFault, env.now);
    if viaDl.Some? then Outcome(afterDl, Success(viaDl.value), viaDl)
    else
      var (afterYtdl, viaYtdl) := ViaYtdl(afterDl, url, youtubeId, env.ytdl, env.ytdlCreateFault, env.now);
      if viaYtdl.Some? then Outcome(afterYtdl, Success(viaYtdl.value), viaYtdl)
      else Outcome(t, Failure(ProcessFailure), None)
  }

  /** `processVideo` over the tables `t`. */
  ghost function Intake(t: Tables, url: string, env: IntakeEnv): (r: Outcome)
    ensures r.result.Failure? ==> r == Outcome(t, Failure(ProcessFailure), None)
  {
    var failed := Outcome(t, Failure(ProcessFailure), None);
    match ExtractVideoId(url)
    case NoMatch => failed
    case NoCaptureGroup => failed
    case Id(youtubeId) =>
      match OrThrow(LookupByYoutubeId(t, youtubeId, env.lookupFault))
      case Failure(Fault(_)) => failed
      case Failure(NoRows) => Create(t, url, youtubeId, env)
      case Success(existing) =>
        match Details(t, existing.id, env.detailFaults)
        case Failure(Fault(_)) => failed
        case Failure(NoRows) => Create(t, url, youtubeId, env)
        case Success(details) =>
          var needsWork := details.transcript.None? || details.summary.None?;
          Outcome(t, Success(existing), if needsWork then Some(existing) else None)
  }

  /** The worker's answer to `POST /process`, or a failed request. */
  datatype WorkerReply = Replied(status: string, transcript: Option<string>, summary: Option<string>) | RequestFailed

  /** Everything outside the service that one background run depends on. */
  datatype BackgroundEnv = BackgroundEnv(
    reply: WorkerReply,
    completedFault: Option<StoreFault>,
    transcriptFault: Option<StoreFault>,
    summaryFault: Option<StoreFault>,
    failedFault: Option<StoreFault>,
    now: Timestamp)

  /** A JavaScript-truthy optional string: present and non-empty. */
  predicate Truthy(text: Option<string>) {
    text.Some? && text.value != ""
  }

  /** The worker reported `completed`. */
  predicate ReportsCompleted(reply: WorkerReply) {
    reply.Replied? && reply.status == "completed"
  }

  /**
   * The `try` block of `processVideoInBackground`: the tables it leaves and
   * whether it ended without throwing.
   */
  function Completion(t: Tables, video: Video, env: BackgroundEnv): (r: (Tables, bool))
    ensures !ReportsCompleted(env.reply) ==> r == (t, false)
    ensures r.1 <==> (ReportsCompleted(env.reply) && env.completedFault.None? && video.id in t.videos
                      && (Truthy(env.reply.transcript) ==> env.transcriptFault.None?)
                      && (Truthy(env.reply.summary) ==> env.summaryFault.None?))
  {
    if !ReportsCompleted(env.reply) then (t, false)
    else
      var (marked, updated) := UpdateStatus(t, video.id, Completed, env.completedFault);
      if updated.Failure? then (marked, false)
      else
        var (withTranscript, transcriptSaved) :=
          if Truthy(env.reply.transcript) then
            var (tables, row) := InsertTranscript(marked, TextInsert(video.id, env.reply.transcript.value), env.now, env.transcriptFault);
            (tables, row.Success?)
          else (marked, true);
        if !transcriptSaved then (withTranscript, false)
        else if Truthy(env.reply.summary) then
          var (tables, row) := InsertSummary(withTranscript, TextInsert(video.id, env.reply.summary.value), env.now, env.summaryFault);
          (tables, row.Success?)
        else (withTranscript, true)
  }

  /**
   * `processVideoInBackground`: when the `try` block throws, the row is marked
   * `failed`; an error from that last update escapes to the `.catch` that logs it.
   */
  function Background(t: Tables, video: Video, env: BackgroundEnv): (r: (Tables, Option<DbError>))
    ensures t.Valid() ==> r.0.Valid()
  {
    var (tried, ok) := Completion(t, video, env);
    if ok then (tried, None)
    else
      var (marked, updated) := UpdateStatus(tried, video.id, Failed, env.failedFault);
      (marked, if updated.Failure? then Some(updated.error) else None)
  }

  class VideoService {
    const repository: VideoRepository

    constructor (repository: VideoRepository)
      ensures this.repository == repository
    {
      this.repository := repository;
    }

    method ProcessVideo(url: string, env: IntakeEnv) returns (result: Result<Video, string>, dispatched: Option<Video>)
      requires repository.Valid()
      modifies repository
      ensures repository.Valid()
      ensures Outcome(repository.State(), result, dispatched) == Intake(old(repository.State()), url, env)
    {
      var extracted := ExtractVideoId(url);
      if !extracted.Id? {
        return Failure(ProcessFailure), None;
      }
      var youtubeId := extracted.id;
      var existing := repository.GetVideoByYoutubeId(youtubeId, env.lookupFault);
      if existing.Success? {
        var details := repository.GetVideoWithDetails(existing.value.id, env.detailFaults);
        if details.Success? {
          if details.value.transcript.None? || details.value.summary.None? {
            dispatched := Some(existing.value);
          } else {
            dispatched := None;
          }
          return Success(existing.value), dispatched;
        } else if details.error.Fault? {
          return Failure(ProcessFailure), None;
        }
      } else if existing.error.Fault? {
        return Failure(ProcessFailure), None;
      }
      var created := ProcessWithYoutubeDl(url, youtubeId, env.youtubeDl, env.youtubeDlCreateFault, env.now);
      if created.None? {
        created := ProcessWithYtdl(url, youtubeId, env.ytdl, env.ytdlCreateFault, env.now);
      }
      if created.None? {
        return Failure(ProcessFailure), None;
      }
      return Success(created.value), created;
    }

    method ProcessWithYoutubeDl(url: string, youtubeId: string, fetch: MetadataFetch, fault: Option<StoreFault>, now: Timestamp) returns (created: Option<Video>)
      requires repository.Valid()
      modifies repository
      ensures repository.Valid()
      ensures (repository.State(), created) == ViaYoutubeDl(old(repository.State()), url, youtubeId, fetch, fault, now)
    {
      if fetch.FetchFailed? || fetch.title == "" {
        return None;
      }
      var video := repository.CreateVideo(NewRow(url, youtubeId, fetch.title, fetch.thumbnail), now, fault);
      created := if video.Success? then Some(video.value) else None;
    }

    method ProcessWithYtdl(url: string, youtubeId: string, fetch: MetadataFetch, fault: Option<StoreFault>, now: Timestamp) returns (created: Option<Video>)
      requires repository.Valid()
      modifies repository
      ensures repository.Valid()
      ensures (repository.State(), created) == ViaYtdl(old(repository.State()), url, youtubeId, fetch, fault, now)
    {
      if fetch.FetchFailed? {
        return None;
      }
      var video := repository.CreateVideo(NewRow(url, youtubeId, fetch.title, fetch.thumbnail), now, fault);
      created := if video.Success? then Some(video.value) else None;
    }

    method ProcessVideoInBackground(video: Video, env: BackgroundEnv) returns (escaped: Option<DbError>)
      requires repository.Valid()
      modifies repository
      ensures repository.Valid()
      ensures (repository.State(), escaped) == Background(old(repository.State()), video, env)
    {
      var completed := false;
      if ReportsCompleted(env.reply) {
        var updated := repository.UpdateVideoStatus(video.id, Completed, env.completedFault);
        if updated.Success? {
          var saved := true;
          if Truthy(env.reply.transcript) {
            var row := repository.CreateTranscript(TextInsert(video.id, env.reply.transcript.value), env.now, env.transcriptFault);
            saved := row.Success?;
          }
          if saved && Truthy(env.reply.summary) {
            var row := repository.CreateSummary(TextInsert(video.id, env.reply.summary.value), env.now, env.summaryFault);
            saved := row.Success?;
          }
          completed := saved;
        }
      }
      escaped := None;
      if !completed {
        var updated := repository.UpdateVideoStatus(video.id, Failed, env.failedFault);
        if updated.Failure? {
          escaped := Some(updated.error);
        }
      }
    }

    method GetVideoDetails(id: RowId, faults: DetailFaults) returns (r: Result<VideoDetails, DbError>)
      ensures r == Details(repository.State(), id, faults)
    {
      r := repository.GetVideoWithDetails(id, faults);
    }
  }

  /** An id that cannot be extracted fails the intake and touches nothing. */
  lemma InvalidUrlChangesNothing(t: Tables, url: string, env: IntakeEnv)
    requires !ExtractVideoId(url).Id?
    ensures Intake(t, url, env) == Outcome(t, Failure(ProcessFailure), None)
  {
  }

  /** A bare eleven-character id is rejected like any other unusable URL. */
  lemma {:induction false} BareIdRejected(t: Tables, url: string, env: IntakeEnv)
    requires IsBareId(url)
    ensures Intake(t, url, env) == Outcome(t, Failure(ProcessFailure), None)
  {
    BareIdYieldsNoId(url);
  }

  /** A store fault on the lookup by YouTube id reaches the caller as the generic failure. */
  lemma LookupFaultRejected(t: Tables, url: string, env: IntakeEnv)
    requires ExtractVideoId(url).Id? && env.lookupFault.Some?
    ensures Intake(t, url, env) == Outcome(t, Failure(ProcessFailure), None)
  {
  }

  /**
   * A row carrying the extracted id is returned unchanged with no write; it is
   * dispatched again exactly when its transcript or its summary did not come back.
   */
  lemma {:induction false} ExistingRowReused(t: Tables, k: RowId, url: string, env: IntakeEnv)
    requires t.Valid() && UniqueYoutubeIds(t) && k in t.videos
    requires ExtractVideoId(url) == Id(t.videos[k].youtube_id)
    requires env.lookupFault.None? && env.detailFaults.video.None?
    ensures Intake(t, url, env).tables == t
    ensures Intake(t, url, env).result == Success(t.videos[k])
    ensures Intake(t, url, env).dispatched.Some? ==> Intake(t, url, env).dispatched.value == t.videos[k]
    ensures Intake(t, url, env).dispatched.Some? <==>
      !(env.detailFaults.transcript.None? && |RowsOfVideo(t.transcripts, k)| == 1
        && env.detailFaults.summary.None? && |RowsOfVideo(t.summaries, k)| == 1)
  {
    UniqueIdFound(t, k, None);
  }

  /** With unique YouTube ids, a lookup that selects no single row means no row carries the id. */
  lemma {:induction false} NotFoundMeansAbsent(t: Tables, youtubeId: string)
    requires UniqueYoutubeIds(t)
    requires LookupByYoutubeId(t, youtubeId, None).NotFound?
    ensures forall k :: k in t.videos ==> t.videos[k].youtube_id != youtubeId
  {
    forall k | k in t.videos ensures t.videos[k].youtube_id != youtubeId {
      if t.videos[k].youtube_id == youtubeId {
        UniqueIdFound(t, k, None);
      }
    }
  }

  /** A YouTube id no row carries leads to creation: youtube-dl first, then ytdl-core. */
  lemma {:induction false} AbsentIdCreates(t: Tables, url: string, youtubeId: string, env: IntakeEnv)
    requires ExtractVideoId(url) == Id(youtubeId) && env.lookupFault.None?
    requires forall k :: k in t.videos ==> t.videos[k].youtube_id != youtubeId
    ensures Intake(t, url, env) == Create(t, url, youtubeId, env)
  {
    AbsentIdNotFound(t, youtubeId);
  }

  /** When the intake reaches creation, no row carries the extracted id. */
  lemma {:induction false} CreationOnlyForAbsentId(t: Tables, url: string, youtubeId: string, env: IntakeEnv)
    requires t.Valid() && UniqueYoutubeIds(t)
    requires ExtractVideoId(url) == Id(youtubeId)
    requires Intake(t, url, env).tables != t
    ensures forall k :: k in t.videos ==> t.videos[k].youtube_id != youtubeId
  {
    var lookup := LookupByYoutubeId(t, youtubeId, env.lookupFault);
    if lookup.NotFound? {
      NotFoundMeansAbsent(t, youtubeId);
    }
  }

  /** The intake keeps the tables well formed and YouTube ids unique. */
  lemma {:induction false} IntakeKeepsUnique(t: Tables, url: string, env: IntakeEnv)
    requires t.Valid() && UniqueYoutubeIds(t)
    ensures Intake(t, url, env).tables.Valid()
    ensures UniqueYoutubeIds(Intake(t, url, env).tables)
  {
    var r := Intake(t, url, env);
    if r.tables != t {
      var youtubeId := ExtractVideoId(url).id;
      CreationOnlyForAbsentId(t, url, youtubeId, env);
      assert r == Create(t, url, youtubeId, env);
      var source := if YoutubeDlUsable(env) then env.youtubeDl else env.ytdl;
      InsertKeepsUnique(t, NewRow(url, youtubeId, source.title, source.thumbnail), env.now, None);
    }
  }

  /** A successful intake returns a stored row carrying the extracted id. */
  lemma {:induction false} IntakeResultStored(t: Tables, url: string, env: IntakeEnv)
    requires t.Valid()
    requires Intake(t, url, env).result.Success?
    ensures var r := Intake(t, url, env);
      r.result.value.id in r.tables.videos && r.tables.videos[r.result.value.id] == r.result.value
      && ExtractVideoId(url) == Id(r.result.value.youtube_id)
  {
    var r := Intake(t, url, env);
    var youtubeId := ExtractVideoId(url).id;
    if r.tables == t && LookupByYoutubeId(t, youtubeId, env.lookupFault).Found? {
      var k :| k in t.videos && t.videos[k] == LookupByYoutubeId(t, youtubeId, env.lookupFault).row;
    } else {
      assert r == Create(t, url, youtubeId, env);
    }
  }

  /**
   * Submitting again, in the same or another URL form with the same id,
   * returns the row the first submission returned and writes nothing.
   */
  lemma {:induction false} ResubmissionReusesRow(t: Tables, url: string, env: IntakeEnv, again: string, env2: IntakeEnv)
    requires t.Valid() && UniqueYoutubeIds(t)
    requires Intake(t, url, env).result.Success?
    requires ExtractVideoId(again) == ExtractVideoId(url)
    requires env2.lookupFault.None? && env2.detailFaults.video.None?
    ensures var first := Intake(t, url, env);
      var second := Intake(first.tables, again, env2);
      second.tables == first.tables && second.result == first.result
  {
    var first := Intake(t, url, env);
    IntakeKeepsUnique(t, url, env);
    IntakeResultStored(t, url, env);
    ExistingRowReused(first.tables, first.result.value.id, again, env2);
  }

  /** Two video tables with the same rows carrying the same YouTube ids. */
  ghost predicate SameYoutubeIds(a: map<RowId, Video>, b: map<RowId, Video>) {
    a.Keys == b.Keys && forall k :: k in a ==> a[k].youtube_id == b[k].youtube_id
  }

  /** A status update, failed or not, keeps every row and its YouTube id. */
  lemma {:induction false} UpdateSameYoutubeIds(t: Tables, id: RowId, status: VideoStatus, fault: Option<StoreFault>)
    ensures SameYoutubeIds(UpdateStatus(t, id, status, fault).0.videos, t.videos)
  {
    var r := UpdateStatus(t, id, status, fault);
    if r.1.Success? {
      assert r.0.videos[id].youtube_id == t.videos[id].youtube_id;
    }
  }

  /** The `try` block changes the video rows only by its `completed` update. */
  lemma {:induction false} CompletionVideos(t: Tables, video: Video, env: BackgroundEnv)
    ensures var tried := Completion(t, video, env).0;
      tried.videos == t.videos || tried.videos == UpdateStatus(t, video.id, Completed, env.completedFault).0.videos
  {
  }

  /**
   * Whatever the worker replies and whichever write fails, the background step
   * keeps the video rows, their YouTube ids and so their uniqueness.
   */
  lemma {:induction false} BackgroundKeepsUnique(t: Tables, video: Video, env: BackgroundEnv)
    requires UniqueYoutubeIds(t)
    ensures var done := Background(t, video, env).0;
      && UniqueYoutubeIds(done) && done.videos.Keys == t.videos.Keys
      && forall k :: k in t.videos ==> done.videos[k].youtube_id == t.videos[k].youtube_id
  {
    var tried := Completion(t, video, env).0;
    CompletionVideos(t, video, env);
    UpdateSameYoutubeIds(t, video.id, Completed, env.completedFault);
    assert SameYoutubeIds(tried.videos, t.videos);
    var done := Background(t, video, env).0;
    assert done == tried || done == UpdateStatus(tried, video.id, Failed, env.failedFault).0;
    UpdateSameYoutubeIds(tried, video.id, Failed, env.failedFault);
    assert SameYoutubeIds(done.videos, t.videos);
    forall j, k | j in done.videos && k in done.videos && done.videos[j].youtube_id == done.videos[k].youtube_id
      ensures j == k
    {
      assert t.videos[j].youtube_id == t.videos[k].youtube_id;
    }
  }

  /**
   * A submission, then a background run under any reply and any store faults,
   * then a second submission of the same id with a fault-free lookup and video select: the
   * second gets the first submission's row back and writes nothing.
   */
  lemma {:induction false} ResubmitAfterBackground(t: Tables, url: string, env: IntakeEnv, video: Video, run: BackgroundEnv, again: string, env2: IntakeEnv)
    requires t.Valid() && UniqueYoutubeIds(t)
    requires Intake(t, url, env).result.Success?
    requires ExtractVideoId(again) == ExtractVideoId(url)
    requires env2.lookupFault.None? && env2.detailFaults.video.None?
    ensures var first := Intake(t, url, env);
      var after := Background(first.tables, video, run).0;
      var second := Intake(after, again, env2);
      && second.tables == after && second.result.Success?
      && second.result.value.id == first.result.value.id
      && second.result.value == after.videos[first.result.value.id]
  {
    var first := Intake(t, url, env);
    IntakeKeepsUnique(t, url, env);
    IntakeResultStored(t, url, env);
    var after := Background(first.tables, video, run).0;
    BackgroundKeepsUnique(first.tables, video, run);
    var k := first.result.value.id;
    assert after.videos[k].youtube_id == first.result.value.youtube_id;
    ExistingRowReused(after, k, again, env2);
  }

  /**
   * A `completed` reply with no store fault: the status becomes `completed`, then
   * the transcript and the summary are inserted, each only when its text is non-empty.
   */
  lemma {:induction false} BackgroundCompletes(t: Tables, video: Video, env: BackgroundEnv)
    requires t.Valid() && video.id in t.videos && ReportsCompleted(env.reply)
    requires env.completedFault.None? && env.transcriptFault.None? && env.summaryFault.None?
    ensures Background(t, video, env).1 == None
    ensures Background(t, video, env).0.videos == t.videos[video.id := t.videos[video.id].(status := Completed)]
    ensures Background(t, video, env).0.transcripts ==
      if Truthy(env.reply.transcript)
      then t.transcripts[t.nextId := TextRow(t.nextId, video.id, env.reply.transcript.value, env.now)]
      else t.transcripts
    ensures var n := if Truthy(env.reply.transcript) then t.nextId + 1 else t.nextId;
      Background(t, video, env).0.summaries ==
        if Truthy(env.reply.summary)
        then t.summaries[n := TextRow(n, video.id, env.reply.summary.value, env.now)]
        else t.summaries
  {
    var marked := UpdateStatus(t, video.id, Completed, None).0;
    assert marked.videos == t.videos[video.id := t.videos[video.id].(status := Completed)];
  }

  /** Any reply other than `completed`, or a failed request, marks the row `failed` and nothing else. */
  lemma {:induction false} BackgroundFailsOtherwise(t: Tables, video: Video, env: BackgroundEnv)
    requires t.Valid() && video.id in t.videos && !ReportsCompleted(env.reply) && env.failedFault.None?
    ensures Background(t, video, env) == (t.(videos := t.videos[video.id := t.videos[video.id].(status := Failed)]), None)
  {
    var marked := UpdateStatus(t, video.id, Failed, None).0;
    assert marked.videos == t.videos[video.id := t.videos[video.id].(status := Failed)];
  }

  /**
   * A failed transcript insert after the row was marked `completed` leaves it
   * `failed`, with no text row, when the final `failed` update meets no store fault.
   */
  lemma {:induction false} TranscriptFaultEndsFailed(t: Tables, video: Video, env: BackgroundEnv)
    requires t.Valid() && video.id in t.videos && ReportsCompleted(env.reply)
    requires env.completedFault.None? && Truthy(env.reply.transcript) && env.transcriptFault.Some? && env.failedFault.None?
    ensures Background(t, video, env).1 == None
    ensures Background(t, video, env).0 == t.(videos := t.videos[video.id := t.videos[video.id].(status := Failed)])
  {
    var marked := UpdateStatus(t, video.id, Completed, None).0;
    assert marked.videos == t.videos[video.id := t.videos[video.id].(status := Completed)];
    var failed := UpdateStatus(marked, video.id, Failed, None).0;
    assert failed.videos == t.videos[video.id := t.videos[video.id].(status := Failed)];
  }

  /**
   * The background step ends with the row `completed` or `failed` and no error
   * escaping, changing no other video row; `completed` exactly when the try block succeeded.
   */
  lemma {:induction false} BackgroundFinalStatus(t: Tables, video: Video, env: BackgroundEnv)
    requires t.Valid() && video.id in t.videos && env.failedFault.None?
    ensures Background(t, video, env).1 == None
    ensures Background(t, video, env).0.videos.Keys == t.videos.Keys
    ensures forall k :: k in t.videos && k != video.id ==> Background(t, video, env).0.videos[k] == t.videos[k]
    ensures Background(t, video, env).0.videos[video.id] ==
      t.videos[video.id].(status := if Completion(t, video, env).1 then Completed else Failed)
  {
    var (tried, ok) := Completion(t, video, env);
    if !ReportsCompleted(env.reply) {
      BackgroundFailsOtherwise(t, video, env);
    } else {
      var marked := UpdateStatus(t, video.id, Completed, env.completedFault).0;
      assert tried.videos == marked.videos;
    }
  }

  /**
   * When the `try` block throws and the final `failed` update meets a store
   * fault, the tables stay as the `try` block left them, so the row keeps its
   * status or is left `completed`, and the fault escapes to the logging `.catch`.
   */
  lemma {:induction false} BackgroundFailedMarkFault(t: Tables, video: Video, env: BackgroundEnv)
    requires env.failedFault.Some? && !Completion(t, video, env).1
    ensures Background(t, video, env).0 == Completion(t, video, env).0
    ensures Background(t, video, env).1 == Some(Fault(env.failedFault.value))
    ensures video.id in t.videos ==>
      var row := Background(t, video, env).0.videos[video.id];
      row == t.videos[video.id] || row == t.videos[video.id].(status := Completed)
  {
  }

  /** A row that no longer exists: nothing is written and "no single row" escapes to the logging `.catch`. */
  lemma BackgroundMissingRow(t: Tables, video: Video, env: BackgroundEnv)
    requires video.id !in t.videos
    ensures Background(t, video, env).0 == t
    ensures Background(t, video, env).1 == Some(if env.failedFault.Some? then Fault(env.failedFault.value) else NoRows)
  {
  }

  /** A text row inserted under an unused key for `videoId` joins that video's selection. */
  lemma {:induction false} RowsAfterInsert(table: map<RowId, TextRow>, n: RowId, row: TextRow, videoId: RowId)
    requires n !in table && row.video_id == videoId
    ensures RowsOfVideo(table[n := row], videoId) == RowsOfVideo(table, videoId) + {n}
    ensures |RowsOfVideo(table[n := row], videoId)| == |RowsOfVideo(table, videoId)| + 1
  {
    assert n !in RowsOfVideo(table, videoId);
  }

  /** A completed run with no store fault keeps the tables well formed and marks the row `completed`. */
  lemma {:induction false} CompletedRunVideos(t: Tables, k: RowId, env: BackgroundEnv)
    requires t.Valid() && UniqueYoutubeIds(t) && k in t.videos
    requires ReportsCompleted(env.reply)
    requires env.completedFault.None? && env.transcriptFault.None? && env.summaryFault.None?
    ensures var done := Background(t, t.videos[k], env).0;
      done.Valid() && UniqueYoutubeIds(done) && k in done.videos && done.videos[k] == t.videos[k].(status := Completed)
  {
    var done := Background(t, t.videos[k], env).0;
    BackgroundCompletes(t, t.videos[k], env);
    UpdateKeepsUnique(t, k, Completed, None);
    assert done.videos == UpdateStatus(t, k, Completed, None).0.videos;
  }

  /** A completed run with no store fault adds one transcript row, and one summary row, for each non-empty text. */
  lemma {:induction false} CompletedRunRows(t: Tables, k: RowId, env: BackgroundEnv)
    requires t.Valid() && k in t.videos
    requires ReportsCompleted(env.reply)
    requires env.completedFault.None? && env.transcriptFault.None? && env.summaryFault.None?
    ensures var done := Background(t, t.videos[k], env).0;
      && (Truthy(env.reply.transcript) ==> |RowsOfVideo(done.transcripts, k)| == |RowsOfVideo(t.transcripts, k)| + 1)
      && (Truthy(env.reply.summary) ==> |RowsOfVideo(done.summaries, k)| == |RowsOfVideo(t.summaries, k)| + 1)
  {
    BackgroundCompletes(t, t.videos[k], env);
    if Truthy(env.reply.transcript) {
      RowsAfterInsert(t.transcripts, t.nextId, TextRow(t.nextId, k, env.reply.transcript.value, env.now), k);
    }
    if Truthy(env.reply.summary) {
      var n := if Truthy(env.reply.transcript) then t.nextId + 1 else t.nextId;
      RowsAfterInsert(t.summaries, n, TextRow(n, k, env.reply.summary.value, env.now), k);
    }
  }

  /**
   * A completed run for a row with no transcript and no summary: the next
   * submission of the same id returns the row, now `completed`, and dispatches nothing.
   */
  lemma {:induction false} CompletedRowNotRedispatched(t: Tables, k: RowId, env: BackgroundEnv, url: string, env2: IntakeEnv)
    requires t.Valid() && UniqueYoutubeIds(t) && k in t.videos
    requires RowsOfVideo(t.transcripts, k) == {} && RowsOfVideo(t.summaries, k) == {}
    requires ReportsCompleted(env.reply) && Truthy(env.reply.transcript) && Truthy(env.reply.summary)
    requires env.completedFault.None? && env.transcriptFault.None? && env.summaryFault.None?
    requires ExtractVideoId(url) == Id(t.videos[k].youtube_id)
    requires env2.lookupFault.None? && env2.detailFaults == DetailFaults(None, None, None)
    ensures var done := Background(t, t.videos[k], env).0;
      done.videos[k].status == Completed && Intake(done, url, env2) == Outcome(done, Success(done.videos[k]), None)
  {
    var done := Background(t, t.videos[k], env).0;
    CompletedRunVideos(t, k, env);
    CompletedRunRows(t, k, env);
    ExistingRowReused(done, k, url, env2);
  }

  /** A text row inserted for a video that had none is the one its select finds. */
  lemma {:induction false} SoleChildFound(table: map<RowId, TextRow>, n: RowId, row: TextRow, videoId: RowId)
    requires n !in table && row.video_id == videoId && RowsOfVideo(table, videoId) == {}
    ensures LookupChild(table[n := row], videoId, None) == Found(row)
  {
    RowsAfterInsert(table, n, row, videoId);
    assert RowsOfVideo(table[n := row], videoId) == {n};
  }

  /**
   * A completed run with both texts non-empty and no store fault, for a row
   * with no transcript and no summary: the details then show the row
   * `completed`, carrying the worker's transcript and summary.
   */
  lemma {:induction false} CompletedRunDetails(t: Tables, k: RowId, env: BackgroundEnv)
    requires t.Valid() && k in t.videos
    requires RowsOfVideo(t.transcripts, k) == {} && RowsOfVideo(t.summaries, k) == {}
    requires ReportsCompleted(env.reply) && Truthy(env.reply.transcript) && Truthy(env.reply.summary)
    requires env.completedFault.None? && env.transcriptFault.None? && env.summaryFault.None?
    ensures var d := Details(Background(t, t.videos[k], env).0, k, DetailFaults(None, None, None));
      && d.Success? && d.value.video.status == Completed
      && d.value.transcript.Some? && d.value.transcript.value.text == env.reply.transcript.value
      && d.value.summary.Some? && d.value.summary.value.text == env.reply.summary.value
  {
    var done := Background(t, t.videos[k], env).0;
    BackgroundCompletes(t, t.videos[k], env);
    var n := t.nextId;
    var transcript := TextRow(n, k, env.reply.transcript.value, env.now);
    var summary := TextRow(n + 1, k, env.reply.summary.value, env.now);
    DetailsOfSoleTexts(t, done, k, transcript, summary);
  }

  /** Tables in which a video's only transcript and only summary were just inserted: its details carry both. */
  lemma {:induction false} DetailsOfSoleTexts(t: Tables, done: Tables, k: RowId, transcript: TextRow, summary: TextRow)
    requires t.Valid() && k in done.videos
    requires RowsOfVideo(t.transcripts, k) == {} && RowsOfVideo(t.summaries, k) == {}
    requires transcript.video_id == k && summary.video_id == k
    requires done.transcripts == t.transcripts[t.nextId := transcript]
    requires done.summaries == t.summaries[t.nextId + 1 := summary]
    ensures Details(done, k, DetailFaults(None, None, None)) == Success(VideoDetails(done.videos[k], Some(transcript), Some(summary)))
  {
    SoleChildFound(t.transcripts, t.nextId, transcript, k);
    SoleChildFound(t.summaries, t.nextId + 1, summary, k);
  }

  /**
   * A run whose reply is not `completed`, for a row with no transcript and no
   * summary: the details then show the row `failed`, with neither text.
   */
  lemma {:induction false} FailedRunDetails(t: Tables, k: RowId, env: BackgroundEnv)
    requires t.Valid() && k in t.videos
    requires RowsOfVideo(t.transcripts, k) == {} && RowsOfVideo(t.summaries, k) == {}
    requires !ReportsCompleted(env.reply) && env.failedFault.None?
    ensures var d := Details(Background(t, t.videos[k], env).0, k, DetailFaults(None, None, None));
      && d.Success? && d.value.video.status == Failed
      && d.value.transcript.None? && d.value.summary.None?
  {
    BackgroundFailsOtherwise(t, t.videos[k], env);
  }

  /**
   * A row that already has one transcript is dispatched again when its summary
   * is missing; a completed run then adds a second transcript, after which no
   * single transcript is found and the next submission, with a fault-free
   * lookup and video select, dispatches it once more.
   */
  lemma {:induction false} RedispatchDuplicatesTranscript(t: Tables, k: RowId, env: BackgroundEnv, url: string, env2: IntakeEnv)
    requires t.Valid() && UniqueYoutubeIds(t) && k in t.videos
    requires |RowsOfVideo(t.transcripts, k)| == 1
    requires ReportsCompleted(env.reply) && Truthy(env.reply.transcript)
    requires env.completedFault.None? && env.transcriptFault.None? && env.summaryFault.None?
    requires ExtractVideoId(url) == Id(t.videos[k].youtube_id)
    requires env2.lookupFault.None? && env2.detailFaults.video.None?
    ensures var done := Background(t, t.videos[k], env).0;
      |RowsOfVideo(done.transcripts, k)| == 2 && Intake(done, url, env2).dispatched == Some(done.videos[k])
  {
    var done := Background(t, t.videos[k], env).0;
    CompletedRunVideos(t, k, env);
    CompletedRunRows(t, k, env);
    ExistingRowReused(done, k, url, env2);
  }
}
