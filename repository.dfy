/**
 * `VideoRepository`: the data-access layer over the three tables. The store is
 * abstract: every request may fail with a store fault, which the caller passes
 * in, and `.single()` reports "no single row" when a filter selects zero rows
 * or more than one.
 */
module Repository {
  import opened Wrappers
  import opened Database

  /** A store error other than "no single row": connectivity, permission, a constraint. */
  datatype StoreFault = StoreFault(reason: string)

  /**
   * What a repository call throws. `NoRows` is the error whose code is
   * `PGRST116`: `.single()` saw zero rows, or more than one.
   */
  datatype DbError = NoRows | Fault(fault: StoreFault)

  /** What a `.single()` select yields. */
  datatype Lookup<T> = Found(row: T) | NotFound | Err(fault: StoreFault)

  /** The `if (error) throw error; return data;` step that ends every repository read. */
  function OrThrow<T>(l: Lookup<T>): (r: Result<T, DbError>)
    ensures r.Success? <==> l.Found?
    ensures r.Success? ==> r.value == l.row
    ensures r == Failure(NoRows) <==> l.NotFound?
  {
    match l
    case Found(row) => Success(row)
    case NotFound => Failure(NoRows)
    case Err(f) => Failure(Fault(f))
  }

  /** A child lookup as `getVideoWithDetails` treats it: only a found row is kept. */
  function OrNull<T>(l: Lookup<T>): (r: Option<T>)
    ensures r.Some? <==> l.Found?
    ensures r.Some? ==> r.value == l.row
  {
    if l.Found? then Some(l.row) else None
  }

  /** The contents of the `videos`, `transcripts` and `summaries` tables. */
  datatype Tables = Tables(
    videos: map<RowId, Video>,
    transcripts: map<RowId, TextRow>,
    summaries: map<RowId, TextRow>,
    nextId: RowId)
  {
    /** Every row is stored under its own identity, and the next identity is unused. */
    ghost predicate Valid() {
      && (forall k :: k in videos ==> videos[k].id == k && k < nextId)
      && (forall k :: k in transcripts ==> transcripts[k].id == k && k < nextId)
      && (forall k :: k in summaries ==> summaries[k].id == k && k < nextId)
    }
  }

  /** The rows `.eq('id', id)` selects. */
  function VideosWithId(t: Tables, id: RowId): set<RowId> {
    set k | k in t.videos && k == id
  }

  /** The rows `.eq('youtube_id', youtubeId)` selects. */
  function VideosWithYoutubeId(t: Tables, youtubeId: string): set<RowId> {
    set k | k in t.videos && t.videos[k].youtube_id == youtubeId
  }

  /** The rows of a child table that `.eq('video_id', videoId)` selects. */
  function RowsOfVideo(table: map<RowId, TextRow>, videoId: RowId): set<RowId> {
    set k | k in table && table[k].video_id == videoId
  }

  lemma SingletonIs<T>(s: set<T>, x: T)
    requires |s| == 1 && x in s
    ensures s == {x}
  {
    assert |s - {x}| == 0;
  }

  /** The one row a singleton selection names. */
  ghost function TheRow<T>(rows: map<RowId, T>, matching: set<RowId>): (r: T)
    requires |matching| == 1 && matching <= rows.Keys
    ensures forall k :: k in matching ==> r == rows[k]
  {
    var k :| k in matching;
    SingletonIs(matching, k);
    rows[k]
  }

  /** `.single()`: the row when exactly one is selected, `NotFound` otherwise. */
  ghost function Single<T>(rows: map<RowId, T>, matching: set<RowId>, fault: Option<StoreFault>): (r: Lookup<T>)
    requires matching <= rows.Keys
    ensures fault.Some? ==> r == Err(fault.value)
    ensures fault.None? ==> (r.Found? <==> |matching| == 1) && (r.NotFound? <==> |matching| != 1)
    ensures r.Found? ==> forall k :: k in matching ==> r.row == rows[k]
  {
    if fault.Some? then Err(fault.value)
    else if |matching| == 1 then Found(TheRow(rows, matching))
    else NotFound
  }

  /** The select of `getVideoById` and of the first query of `getVideoWithDetails`. */
  ghost function LookupVideo(t: Tables, id: RowId, fault: Option<StoreFault>): (r: Lookup<Video>)
    ensures fault.None? ==> (r.Found? <==> id in t.videos) && (r.Found? ==> r.row == t.videos[id])
    ensures fault.None? ==> (r.NotFound? <==> id !in t.videos)
  {
    var matching := VideosWithId(t, id);
    assert id in t.videos ==> matching == {id};
    assert id !in t.videos ==> matching == {};
    Single(t.videos, matching, fault)
  }

  /** The select of `getVideoByYoutubeId`. */
  ghost function LookupByYoutubeId(t: Tables, youtubeId: string, fault: Option<StoreFault>): (r: Lookup<Video>)
    ensures r.Found? ==> exists k :: k in t.videos && t.videos[k] == r.row
    ensures r.Found? ==> r.row.youtube_id == youtubeId
    ensures fault.None? ==> (r.Found? <==> |VideosWithYoutubeId(t, youtubeId)| == 1)
  {
    Single(t.videos, VideosWithYoutubeId(t, youtubeId), fault)
  }

  /** The select of a transcript or summary by its video. */
  ghost function LookupChild(table: map<RowId, TextRow>, videoId: RowId, fault: Option<StoreFault>): (r: Lookup<TextRow>)
    ensures r.Found? ==> r.row in table.Values && r.row.video_id == videoId
    ensures fault.None? ==> (r.Found? <==> |RowsOfVideo(table, videoId)| == 1)
  {
    var matching := RowsOfVideo(table, videoId);
    var r := Single(table, matching, fault);
    if r.Found? then
      var k :| k in matching;
      assert table[k] in table.Values;
      r
    else r
  }

  /** `createVideo` against the tables: one new row under a fresh identity, or nothing on a fault. */
  function InsertVideo(t: Tables, video: VideoInsert, now: Timestamp, fault: Option<StoreFault>): (r: (Tables, Result<Video, DbError>))
    ensures t.Valid() ==> r.0.Valid()
    ensures fault.Some? ==> r == (t, Failure(Fault(fault.value)))
    ensures fault.None? ==> r.1.Success? && InsertPart(r.1.value) == video && r.1.value.created_at == now
    ensures fault.None? && t.Valid() ==> r.1.value.id !in t.videos && r.0.videos == t.videos[r.1.value.id := r.1.value]
    ensures r.0.transcripts == t.transcripts && r.0.summaries == t.summaries
  {
    if fault.Some? then (t, Failure(Fault(fault.value)))
    else
      var row := InsertedVideo(video, t.nextId, now);
      (t.(videos := t.videos[t.nextId := row], nextId := t.nextId + 1), Success(row))
  }

  /** A new transcript or summary row under a fresh identity. */
  function InsertText(table: map<RowId, TextRow>, nextId: RowId, row: TextInsert, now: Timestamp): (r: (map<RowId, TextRow>, TextRow))
    ensures TextInsert(r.1.video_id, r.1.text) == row && r.1.id == nextId
    ensures r.0 == table[nextId := r.1]
  {
    var inserted := InsertedText(row, nextId, now);
    (table[nextId := inserted], inserted)
  }

  /** `createTranscript` against the tables. */
  function InsertTranscript(t: Tables, transcript: TextInsert, now: Timestamp, fault: Option<StoreFault>): (r: (Tables, Result<Transcript, DbError>))
    ensures t.Valid() ==> r.0.Valid()
    ensures fault.Some? ==> r == (t, Failure(Fault(fault.value)))
    ensures fault.None? ==> r.1.Success? && TextInsert(r.1.value.video_id, r.1.value.text) == transcript
    ensures fault.None? && t.Valid() ==> r.1.value.id !in t.transcripts && r.0.transcripts == t.transcripts[r.1.value.id := r.1.value]
    ensures r.0.videos == t.videos && r.0.summaries == t.summaries
  {
    if fault.Some? then (t, Failure(Fault(fault.value)))
    else
      var (table, row) := InsertText(t.transcripts, t.nextId, transcript, now);
      (t.(transcripts := table, nextId := t.nextId + 1), Success(row))
  }

  /** `createSummary` against the tables. */
  function InsertSummary(t: Tables, summary: TextInsert, now: Timestamp, fault: Option<StoreFault>): (r: (Tables, Result<Summary, DbError>))
    ensures t.Valid() ==> r.0.Valid()
    ensures fault.Some? ==> r == (t, Failure(Fault(fault.value)))
    ensures fault.None? ==> r.1.Success? && TextInsert(r.1.value.video_id, r.1.value.text) == summary
    ensures fault.None? && t.Valid() ==> r.1.value.id !in t.summaries && r.0.summaries == t.summaries[r.1.value.id := r.1.value]
    ensures r.0.videos == t.videos && r.0.transcripts == t.transcripts
  {
    if fault.Some? then (t, Failure(Fault(fault.value)))
    else
      var (table, row) := InsertText(t.summaries, t.nextId, summary, now);
      (t.(summaries := table, nextId := t.nextId + 1), Success(row))
  }

  /**
   * `updateVideoStatus` against the tables: the status of the row with that
   * identity changes and nothing else; no such row is "no single row".
   */
  function UpdateStatus(t: Tables, id: RowId, status: VideoStatus, fault: Option<StoreFault>): (r: (Tables, Result<Video, DbError>))
    ensures t.Valid() ==> r.0.Valid()
    ensures r.0.videos.Keys == t.videos.Keys
    ensures forall k :: k in t.videos && k != id ==> r.0.videos[k] == t.videos[k]
    ensures r.0.transcripts == t.transcripts && r.0.summaries == t.summaries && r.0.nextId == t.nextId
    ensures r.1.Success? <==> fault.None? && id in t.videos
    ensures r.1.Success? ==> r.1.value == t.videos[id].(status := status) && r.0.videos[id] == r.1.value
    ensures r.1.Failure? ==> r.0 == t && r.1.error == (if fault.Some? then Fault(fault.value) else NoRows)
  {
    if fault.Some? then (t, Failure(Fault(fault.value)))
    else if id !in t.videos then (t, Failure(NoRows))
    else
      var row := ApplyUpdate(t.videos[id], StatusUpdate(status));
      StatusUpdateOnlyStatus(t.videos[id], status);
      (t.(videos := t.videos[id := row]), Success(row))
  }

  /** The result of `getVideoWithDetails`. */
  datatype VideoDetails = VideoDetails(video: Video, transcript: Option<Transcript>, summary: Option<Summary>)

  /** The store's answer to each of the three selects of `getVideoWithDetails`. */
  datatype DetailFaults = DetailFaults(video: Option<StoreFault>, transcript: Option<StoreFault>, summary: Option<StoreFault>)

  /**
   * `getVideoWithDetails`: the video (a failed video select is thrown), then
   * the transcript and the summary, each null unless exactly one row was found.
   */
  ghost function Details(t: Tables, id: RowId, faults: DetailFaults): (r: Result<VideoDetails, DbError>)
    ensures r.Failure? <==> faults.video.Some? || id !in t.videos
    ensures r.Failure? ==> r.error == (if faults.video.Some? then Fault(faults.video.value) else NoRows)
    ensures r.Success? ==> r.value.video == t.videos[id]
    ensures r.Success? ==>
      (r.value.transcript.Some? <==> faults.transcript.None? && |RowsOfVideo(t.transcripts, id)| == 1)
    ensures r.Success? ==>
      (r.value.summary.Some? <==> faults.summary.None? && |RowsOfVideo(t.summaries, id)| == 1)
    ensures r.Success? && r.value.transcript.Some? ==>
      r.value.transcript.value in t.transcripts.Values && r.value.transcript.value.video_id == id
    ensures r.Success? && r.value.summary.Some? ==>
      r.value.summary.value in t.summaries.Values && r.value.summary.value.video_id == id
  {
    match OrThrow(LookupVideo(t, id, faults.video))
    case Failure(e) => Failure(e)
    case Success(video) =>
      Success(VideoDetails(
        video,
        OrNull(LookupChild(t.transcripts, id, faults.transcript)),
        OrNull(LookupChild(t.summaries, id, faults.summary))))
  }

  /** No two videos share a YouTube id: the guarantee `processVideo` relies on. */
  ghost predicate UniqueYoutubeIds(t: Tables) {
    forall j, k :: j in t.videos && k in t.videos && t.videos[j].youtube_id == t.videos[k].youtube_id ==> j == k
  }

  /** With unique YouTube ids, the select by YouTube id finds the one row carrying it, and only fails on a fault. */
  lemma {:induction false} UniqueIdFound(t: Tables, k: RowId, fault: Option<StoreFault>)
    requires UniqueYoutubeIds(t) && k in t.videos
    ensures fault.None? ==> LookupByYoutubeId(t, t.videos[k].youtube_id, fault) == Found(t.videos[k])
  {
    var matching := VideosWithYoutubeId(t, t.videos[k].youtube_id);
    assert matching == {k} by {
      forall j | j in matching ensures j == k { }
    }
  }

  /** A YouTube id carried by no row is "no single row" for the select by YouTube id. */
  lemma {:induction false} AbsentIdNotFound(t: Tables, youtubeId: string)
    requires forall k :: k in t.videos ==> t.videos[k].youtube_id != youtubeId
    ensures LookupByYoutubeId(t, youtubeId, None) == NotFound
  {
    assert VideosWithYoutubeId(t, youtubeId) == {};
  }

  /** Inserting a video whose YouTube id no row carries keeps YouTube ids unique. */
  lemma {:induction false} InsertKeepsUnique(t: Tables, video: VideoInsert, now: Timestamp, fault: Option<StoreFault>)
    requires t.Valid() && UniqueYoutubeIds(t)
    requires forall k :: k in t.videos ==> t.videos[k].youtube_id != video.youtube_id
    ensures UniqueYoutubeIds(InsertVideo(t, video, now, fault).0)
  {
    var r := InsertVideo(t, video, now, fault);
    if fault.None? {
      var n := r.1.value.id;
      forall j, k | j in r.0.videos && k in r.0.videos && r.0.videos[j].youtube_id == r.0.videos[k].youtube_id
        ensures j == k
      {
        if j != n && k != n {
          assert r.0.videos[j] == t.videos[j] && r.0.videos[k] == t.videos[k];
        }
      }
    }
  }

  /** A status update keeps YouTube ids unique. */
  lemma {:induction false} UpdateKeepsUnique(t: Tables, id: RowId, status: VideoStatus, fault: Option<StoreFault>)
    requires UniqueYoutubeIds(t)
    ensures UniqueYoutubeIds(UpdateStatus(t, id, status, fault).0)
  {
    var r := UpdateStatus(t, id, status, fault);
    forall j, k | j in r.0.videos && k in r.0.videos && r.0.videos[j].youtube_id == r.0.videos[k].youtube_id
      ensures j == k
    {
      assert r.0.videos[j].youtube_id == t.videos[j].youtube_id;
      assert r.0.videos[k].youtube_id == t.videos[k].youtube_id;
    }
  }

  /** A `.single()` select run by the repository's methods. */
  method SelectSingle<T>(rows: map<RowId, T>, matching: set<RowId>, fault: Option<StoreFault>) returns (l: Lookup<T>)
    requires matching <= rows.Keys
    ensures l == Single(rows, matching, fault)
  {
    if fault.Some? {
      return Err(fault.value);
    }
    if |matching| == 1 {
      var k :| k in matching;
      return Found(rows[k]);
    }
    return NotFound;
  }

  class VideoRepository {
    var videos: map<RowId, Video>
    var transcripts: map<RowId, TextRow>
    var summaries: map<RowId, TextRow>
    var nextId: RowId

    function State(): Tables
      reads this
    {
      Tables(videos, transcripts, summaries, nextId)
    }

    ghost predicate Valid()
      reads this
    {
      State().Valid()
    }

    constructor ()
      ensures Valid() && State() == Tables(map[], map[], map[], 0)
    {
      videos, transcripts, summaries, nextId := map[], map[], map[], 0;
    }

    method CreateVideo(video: VideoInsert, now: Timestamp, fault: Option<StoreFault>) returns (r: Result<Video, DbError>)
      requires Valid()
      modifies this
      ensures Valid()
      ensures (State(), r) == InsertVideo(old(State()), video, now, fault)
    {
      if fault.Some? {
        return Failure(Fault(fault.value));
      }
      var row := InsertedVideo(video, nextId, now);
      videos := videos[nextId := row];
      nextId := nextId + 1;
      return Success(row);
    }

    method GetVideoById(id: RowId, fault: Option<StoreFault>) returns (r: Result<Video, DbError>)
      ensures r == OrThrow(LookupVideo(State(), id, fault))
    {
      var found := SelectSingle(videos, VideosWithId(State(), id), fault);
      return OrThrow(found);
    }

    method GetVideoByYoutubeId(youtubeId: string, fault: Option<StoreFault>) returns (r: Result<Video, DbError>)
      ensures r == OrThrow(LookupByYoutubeId(State(), youtubeId, fault))
    {
      var found := SelectSingle(videos, VideosWithYoutubeId(State(), youtubeId), fault);
      return OrThrow(found);
    }

    method UpdateVideoStatus(id: RowId, status: VideoStatus, fault: Option<StoreFault>) returns (r: Result<Video, DbError>)
      requires Valid()
      modifies this
      ensures Valid()
      ensures (State(), r) == UpdateStatus(old(State()), id, status, fault)
    {
      if fault.Some? {
        return Failure(Fault(fault.value));
      }
      if id !in videos {
        return Failure(NoRows);
      }
      var row := ApplyUpdate(videos[id], StatusUpdate(status));
      videos := videos[id := row];
      return Success(row);
    }

    method CreateTranscript(transcript: TextInsert, now: Timestamp, fault: Option<StoreFault>) returns (r: Result<Transcript, DbError>)
      requires Valid()
      modifies this
      ensures Valid()
      ensures (State(), r) == InsertTranscript(old(State()), transcript, now, fault)
    {
      if fault.Some? {
        return Failure(Fault(fault.value));
      }
      var row := InsertedText(transcript, nextId, now);
      transcripts := transcripts[nextId := row];
      nextId := nextId + 1;
      return Success(row);
    }

    method CreateSummary(summary: TextInsert, now: Timestamp, fault: Option<StoreFault>) returns (r: Result<Summary, DbError>)
      requires Valid()
      modifies this
      ensures Valid()
      ensures (State(), r) == InsertSummary(old(State()), summary, now, fault)
    {
      if fault.Some? {
        return Failure(Fault(fault.value));
      }
      var row := InsertedText(summary, nextId, now);
      summaries := summaries[nextId := row];
      nextId := nextId + 1;
      return Success(row);
    }

    method GetVideoWithDetails(id: RowId, faults: DetailFaults) returns (r: Result<VideoDetails, DbError>)
      ensures r == Details(State(), id, faults)
    {
      var video := SelectSingle(videos, VideosWithId(State(), id), faults.video);
      if video.NotFound? {
        return Failure(NoRows);
      } else if video.Err? {
        return Failure(Fault(video.fault));
      }
      var transcript: Option<Transcript> := None;
      var summary: Option<Summary> := None;
      var transcriptData := SelectSingle(transcripts, RowsOfVideo(transcripts, id), faults.transcript);
      if transcriptData.Found? {
        transcript := Some(transcriptData.row);
      }
      var summaryData := SelectSingle(summaries, RowsOfVideo(summaries, id), faults.summary);
      if summaryData.Found? {
        summary := Some(summaryData.row);
      }
      return Success(VideoDetails(video.row, transcript, summary));
    }
  }
}
