/**
 * The row types of the three tables the service uses (`videos`, `transcripts`,
 * `summaries`) and their insert and update shapes.
 */
module Database {
  import opened Wrappers

  /** A row identity generated by the store. */
  type RowId = nat

  /** A timestamp as the store reports it; its format is opaque here. */
  type Timestamp = string

  /** `VideoStatus`: the only three values a video's status can take. */
  datatype VideoStatus = Processing | Completed | Failed

  /** The text the store holds for a status. */
  function StatusText(s: VideoStatus): (t: string)
    ensures ParseStatus(t) == Some(s)
  {
    match s
    case Processing => "processing"
    case Completed => "completed"
    case Failed => "failed"
  }

  /** Reads a stored status; every text other than the three status names is not a status. */
  function ParseStatus(t: string): (r: Option<VideoStatus>)
    ensures r.Some? <==> (t == "processing" || t == "completed" || t == "failed")
  {
    if t == "processing" then Some(Processing)
    else if t == "completed" then Some(Completed)
    else if t == "failed" then Some(Failed)
    else None
  }

  /** A row of `videos`; only `thumbnail` may be null. */
  datatype Video = Video(
    id: RowId,
    youtube_id: string,
    title: string,
    url: string,
    thumbnail: Option<string>,
    status: VideoStatus,
    created_at: Timestamp,
    updated_at: Timestamp)

  /** A row of `transcripts` or of `summaries`: both tables have this one shape. */
  datatype TextRow = TextRow(id: RowId, video_id: RowId, text: string, created_at: Timestamp)

  type Transcript = TextRow
  type Summary = TextRow

  /** The insert shape of `videos`: every field except `id`, `created_at` and `updated_at`. */
  datatype VideoInsert = VideoInsert(
    youtube_id: string,
    title: string,
    url: string,
    thumbnail: Option<string>,
    status: VideoStatus)

  /**
   * The update shape of `videos`: each field may be absent, and `id` and the
   * timestamps are not among them.
   */
  datatype VideoUpdate = VideoUpdate(
    youtube_id: Option<string>,
    title: Option<string>,
    url: Option<string>,
    thumbnail: Option<Option<string>>,
    status: Option<VideoStatus>)

  /** The insert shape of `transcripts` and `summaries`: only `video_id` and `text`. */
  datatype TextInsert = TextInsert(video_id: RowId, text: string)

  /** The fields of a video row that an insert supplies. */
  function InsertPart(v: Video): VideoInsert {
    VideoInsert(v.youtube_id, v.title, v.url, v.thumbnail, v.status)
  }

  /** The row the store creates from an insert, with the identity and time it generates. */
  function InsertedVideo(ins: VideoInsert, id: RowId, now: Timestamp): (v: Video)
    ensures InsertPart(v) == ins
    ensures v.id == id && v.created_at == now && v.updated_at == now
  {
    Video(id, ins.youtube_id, ins.title, ins.url, ins.thumbnail, ins.status, now, now)
  }

  /** The row the store creates from a transcript or summary insert. */
  function InsertedText(ins: TextInsert, id: RowId, now: Timestamp): (r: TextRow)
    ensures TextInsert(r.video_id, r.text) == ins
    ensures r.id == id && r.created_at == now
  {
    TextRow(id, ins.video_id, ins.text, now)
  }

  function Override<T>(field: Option<T>, current: T): T {
    if field.Some? then field.value else current
  }

  /** A partial update applied to a row: absent fields keep their value. */
  function ApplyUpdate(v: Video, u: VideoUpdate): (w: Video)
    ensures w.id == v.id && w.created_at == v.created_at && w.updated_at == v.updated_at
    ensures u == VideoUpdate(None, None, None, None, None) ==> w == v
  {
    v.(youtube_id := Override(u.youtube_id, v.youtube_id),
       title := Override(u.title, v.title),
       url := Override(u.url, v.url),
       thumbnail := Override(u.thumbnail, v.thumbnail),
       status := Override(u.status, v.status))
  }

  /** The update `{ status }` that `updateVideoStatus` sends. */
  function StatusUpdate(s: VideoStatus): VideoUpdate {
    VideoUpdate(None, None, None, None, Some(s))
  }

  /** A status update changes the status field and nothing else. */
  lemma StatusUpdateOnlyStatus(v: Video, s: VideoStatus)
    ensures ApplyUpdate(v, StatusUpdate(s)) == v.(status := s)
    ensures InsertPart(ApplyUpdate(v, StatusUpdate(s))).(status := v.status) == InsertPart(v)
  {
  }
}
